/** `intervalize(interval, step)`: cut `[lo, hi]` into consecutive
    sub-intervals of width `step`, as many as fit, dropping whatever
    sliver narrower than `step` is left over at the top end. */
module Partition {
  import opened Results

  /** An ordered pair `[lo, hi]`: both the interval handed in and each
      sub-interval handed back. */
  datatype Interval = Interval(lo: real, hi: real)
  {
    function Width(): real { hi - lo }
  }

  /** Python's `int(x)` on a number: truncation toward zero. */
  function Truncate(x: real): (r: int)
    ensures 0.0 <= x ==> 0 <= r && r as real <= x < r as real + 1.0
    ensures x < 0.0 ==> r <= 0 && r as real - 1.0 < x <= r as real
  {
    if x >= 0.0 then x.Floor else -((-x).Floor)
  }

  /** `parts` is a run of back-to-back sub-intervals of width `step`
      starting at `lo`. */
  ghost predicate IsTiling(parts: seq<Interval>, lo: real, step: real)
  {
    && (|parts| > 0 ==> parts[0].lo == lo)
    && (forall i :: 0 <= i < |parts| ==> parts[i].Width() == step)
    && (forall i, j :: 0 <= i < j < |parts| && j == i + 1 ==> parts[i].hi == parts[j].lo)
  }

  /** The `i`-th sub-interval starting at `lo`. */
  function Cell(lo: real, step: real, i: int): Interval
  {
    Interval(lo + i as real * step, lo + (i + 1) as real * step)
  }

  /** The first `n` sub-intervals of width `step` starting at `lo`. */
  function Grid(lo: real, step: real, n: nat): seq<Interval>
  {
    seq(n, i requires 0 <= i < n => Cell(lo, step, i))
  }

  /** Scaling a real inequality by a positive factor preserves it. */
  lemma ScaleLe(a: real, b: real, c: real)
    requires a <= b && c > 0.0
    ensures a * c <= b * c
  {
  }

  lemma ScaleLt(a: real, b: real, c: real)
    requires a < b && c > 0.0
    ensures a * c < b * c
  {
  }

  /** The `i`-th of `n` cells lies inside `[lo, lo + n*step]`. */
  lemma CellWithin(lo: real, step: real, i: int, n: int)
    requires step > 0.0 && 0 <= i < n
    ensures lo <= Cell(lo, step, i).lo < Cell(lo, step, i).hi <= lo + n as real * step
  {
    ScaleLe(0.0, i as real, step);
    ScaleLt(i as real, (i + 1) as real, step);
    ScaleLe((i + 1) as real, n as real, step);
  }

  /** Each cell has width `step` and ends where the next one starts. */
  lemma CellStep(lo: real, step: real, i: int)
    ensures Cell(lo, step, i).Width() == step
    ensures Cell(lo, step, i).hi == Cell(lo, step, i + 1).lo
  {
    assert (i + 1) as real * step == i as real * step + step;
  }

  /** The grid is a tiling that stays inside `[lo, lo + n*step]`. */
  lemma GridShape(lo: real, step: real, n: nat)
    requires step > 0.0
    ensures IsTiling(Grid(lo, step, n), lo, step)
    ensures forall i :: 0 <= i < n ==> lo <= Grid(lo, step, n)[i].lo < Grid(lo, step, n)[i].hi <= lo + n as real * step
    ensures n > 0 ==> Grid(lo, step, n)[n - 1].hi == lo + n as real * step
  {
    var g := Grid(lo, step, n);
    forall i | 0 <= i < n
      ensures g[i].Width() == step
      ensures i < n - 1 ==> g[i].hi == g[i + 1].lo
    {
      CellStep(lo, step, i);
    }
    forall i | 0 <= i < n ensures lo <= g[i].lo < g[i].hi <= lo + n as real * step {
      CellWithin(lo, step, i, n);
    }
  }

  /** Dividing by a positive step and scaling back is the identity, and a
      width of at least one step holds at least one step. */
  lemma Quotient(width: real, step: real)
    requires 0.0 < step <= width
    ensures (width / step) * step == width
    ensures width / step >= 1.0
  {
    var q := width / step;
    assert q * step == width;
    if q < 1.0 {
      ScaleLt(q, 1.0, step);
      assert false;
    }
  }

  /** `k` whole steps fit into `width = q * step` and `k + 1` do not,
      when `k` is the whole part of `q`. */
  lemma WholeSteps(width: real, step: real, q: real, k: int)
    requires step > 0.0 && q * step == width
    requires k as real <= q < (k + 1) as real
    ensures k as real * step <= width < (k + 1) as real * step
  {
    ScaleLe(k as real, q, step);
    ScaleLt(q, (k + 1) as real, step);
  }

  /** How many whole steps fit into a width of at least one step. */
  lemma StepCount(width: real, step: real)
    requires 0.0 < step <= width
    ensures Truncate(width / step) == (width / step).Floor >= 1
    ensures (width / step).Floor as real * step <= width < ((width / step).Floor + 1) as real * step
  {
    var q := width / step;
    Quotient(width, step);
    WholeSteps(width, step, q, q.Floor);
  }

  /** The grid of `k` cells from `iv.lo` fits inside `iv`, stopping less
      than one step short of `iv.hi`, when `k` is the number of whole
      steps in `iv`. */
  lemma GridFits(iv: Interval, step: real, k: nat)
    requires step > 0.0 && k >= 1
    requires k as real * step <= iv.Width() < (k + 1) as real * step
    ensures IsTiling(Grid(iv.lo, step, k), iv.lo, step)
    ensures forall i :: 0 <= i < k ==> iv.lo <= Grid(iv.lo, step, k)[i].lo < Grid(iv.lo, step, k)[i].hi <= iv.hi
    ensures 0.0 <= iv.hi - Grid(iv.lo, step, k)[k - 1].hi < step
    ensures step == iv.Width() ==> Grid(iv.lo, step, k) == [iv]
  {
    GridShape(iv.lo, step, k);
    var top := iv.lo + k as real * step;
    assert top <= iv.hi < top + step;
    if step == iv.Width() {
      if k >= 2 {
        ScaleLe(2.0, k as real, step);
        assert false;
      }
      assert Grid(iv.lo, step, k)[0] == iv;
    }
  }

  /** Splits `iv` into `int(width / step)` sub-intervals of width `step`,
      `[lo + i*step, lo + (i+1)*step]` for each `i`; refuses a step wider
      than the interval. */
  function Intervalize(iv: Interval, step: real): (r: Result<seq<Interval>>)
    requires step > 0.0
    ensures r.Err? <==> step > iv.Width()
    ensures r.Err? ==> r.error == StepTooLarge
  {
    if step > iv.Width() then Err(StepTooLarge)
    else Ok(Grid(iv.lo, step, Truncate(iv.Width() / step)))
  }

  /** The shape of a successful split: `k = floor(width / step) >= 1`
      back-to-back sub-intervals of width `step` from `lo`, all inside the
      interval, the dropped remainder at the top narrower than one step;
      a step equal to the width gives the interval itself. */
  lemma IntervalizeShape(iv: Interval, step: real)
    requires 0.0 < step <= iv.Width()
    ensures var parts := Intervalize(iv, step).value;
            && |parts| == (iv.Width() / step).Floor
            && |parts| >= 1
            && |parts| as real * step <= iv.Width() < (|parts| + 1) as real * step
            && IsTiling(parts, iv.lo, step)
            && (forall i :: 0 <= i < |parts| ==> iv.lo <= parts[i].lo < parts[i].hi <= iv.hi)
            && 0.0 <= iv.hi - parts[|parts| - 1].hi < step
            && (step == iv.Width() ==> parts == [iv])
  {
    var k := Truncate(iv.Width() / step);
    StepCount(iv.Width(), step);
    GridFits(iv, step, k);
  }

  /** The `i`-th piece of a tiling is forced to be `Cell(lo, step, i)`. */
  lemma {:induction false} TilingNth(parts: seq<Interval>, lo: real, step: real, i: nat)
    requires IsTiling(parts, lo, step)
    requires i < |parts|
    ensures parts[i] == Cell(lo, step, i)
  {
    if i > 0 {
      TilingNth(parts, lo, step, i - 1);
      assert parts[i - 1].hi == parts[i].lo;
    }
  }

  /** Dropping the first piece of a tiling leaves a tiling from its end. */
  lemma TilingTail(parts: seq<Interval>, lo: real, step: real)
    requires IsTiling(parts, lo, step) && |parts| > 0
    ensures parts[0].hi == lo + step
    ensures IsTiling(parts[1..], lo + step, step)
  {
    var rest := parts[1..];
    assert forall i :: 0 <= i < |rest| ==> rest[i] == parts[i + 1];
  }

  /** A tiling is the arithmetic grid `lo + i*step`, piece by piece. */
  lemma TilingClosedForm(parts: seq<Interval>, lo: real, step: real)
    requires IsTiling(parts, lo, step)
    ensures forall i :: 0 <= i < |parts| ==> parts[i] == Cell(lo, step, i)
  {
    forall i | 0 <= i < |parts| ensures parts[i] == Cell(lo, step, i) {
      TilingNth(parts, lo, step, i);
    }
  }

  /** With a positive step every piece of a tiling runs upward. */
  lemma TilingUpward(parts: seq<Interval>, lo: real, step: real)
    requires step > 0.0 && IsTiling(parts, lo, step)
    ensures forall i :: 0 <= i < |parts| ==> parts[i].lo < parts[i].hi
  {
  }

  /** A successful split is a tiling from the interval's low end. */
  lemma IntervalizeTiles(iv: Interval, step: real)
    requires 0.0 < step <= iv.Width()
    ensures IsTiling(Intervalize(iv, step).value, iv.lo, step)
  {
    IntervalizeShape(iv, step);
  }

  /** `intervalize` has exactly one possible answer: any tiling of the
      right length from the interval's low end is the one it returns. */
  lemma IntervalizeUnique(iv: Interval, step: real, parts: seq<Interval>)
    requires 0.0 < step <= iv.Width()
    requires IsTiling(parts, iv.lo, step)
    requires |parts| == (iv.Width() / step).Floor
    ensures Intervalize(iv, step) == Ok(parts)
  {
    var r := Intervalize(iv, step).value;
    IntervalizeShape(iv, step);
    TilingClosedForm(parts, iv.lo, step);
    TilingClosedForm(r, iv.lo, step);
    assert |r| == |parts|;
    assert forall i :: 0 <= i < |r| ==> r[i] == parts[i];
    assert r == parts;
  }
}
