/** The result of a grid search (autofit/non_linear/grid/grid_search/result.py):
    the grid's cells as lists of lower limits in the unit hypercube, the
    upper limits and centres derived from them, their physical values under
    the grid's priors, the grid's shape, the best search, and the figures of
    merit of all searches.

    A prior's `value_for` is not part of this model; each grid prior is given
    as the function it applies to a unit value. Numbers are reals. */
module GridResult {
  import opened Wrappers

  /** What this file reads from the samples of one search. */
  datatype Sample = Sample(logLikelihood: real, logEvidence: real)

  /** `LimitLists`: a list together with the grid's shape. */
  datatype LimitLists<T> = LimitLists(values: seq<T>, shape: seq<nat>)

  datatype GridError =
    | IndexError
    | ZeroDivisionError
    | TypeError
    | ValueError
    | GridSearchException(message: string)

  // ---------------------------------------------------------------------
  // Side length: the integer root

  function Power(x: nat, d: nat): nat
  {
    if d == 0 then 1 else x * Power(x, d - 1)
  }

  lemma {:induction false} PowerAtLeastBase(x: nat, d: nat)
    requires d > 0 && x > 0
    ensures Power(x, d) >= x
  {
    if d > 1 {
      PowerAtLeastBase(x, d - 1);
      assert Power(x, d) == x * Power(x, d - 1) >= x * 1;
    }
  }

  lemma {:induction false} PowerMonotone(x: nat, y: nat, d: nat)
    requires x <= y
    ensures Power(x, d) <= Power(y, d)
  {
    if d > 0 {
      var px, py := Power(x, d - 1), Power(y, d - 1);
      PowerMonotone(x, y, d - 1);
      MulMonotoneBoth(x, y, px, py);
    }
  }

  lemma MulMonotoneBoth(a: nat, b: nat, c: nat, e: nat)
    requires a <= b && c <= e
    ensures a * c <= b * e
  {
    assert a * c <= b * c;
    assert b * c <= b * e;
  }

  /** The largest `r' >= r` with `Power(r', d) <= n`, searching upwards from `r`. */
  function RootFrom(n: nat, d: nat, r: nat): (root: nat)
    requires d > 0 && Power(r, d) <= n
    ensures r <= root && Power(root, d) <= n < Power(root + 1, d)
    decreases n - r
  {
    PowerAtLeastBase(r + 1, d);
    if Power(r + 1, d) <= n then RootFrom(n, d, r + 1) else r
  }

  /** `int(n ** (1 / d))` for the exact real root: the largest `r` with
      `r ** d <= n`. */
  function IntRoot(n: nat, d: nat): (r: nat)
    requires d > 0
    ensures Power(r, d) <= n < Power(r + 1, d)
  {
    assert Power(0, d) == 0 by { assert Power(0, d) == 0 * Power(0, d - 1); }
    RootFrom(n, d, 0)
  }

  lemma {:induction false} PowerStrictlyMonotone(x: nat, y: nat, d: nat)
    requires x < y && d > 0
    ensures Power(x, d) < Power(y, d)
  {
    var px := Power(x, d - 1);
    var py := Power(y, d - 1);
    PowerMonotone(x, y, d - 1);
    if d == 1 {
      assert py == 1;
    } else {
      PowerAtLeastBase(y, d - 1);
    }
    MulMonotone(x, px, py);
    MulStrictlyMonotone(x, y, py);
    assert Power(x, d) == x * px && Power(y, d) == y * py;
  }

  lemma MulMonotone(a: nat, b: nat, c: nat)
    requires b <= c
    ensures a * b <= a * c
  {
  }

  lemma MulStrictlyMonotone(a: nat, b: nat, c: nat)
    requires a < b && c >= 1
    ensures a * c < b * c
  {
  }

  lemma OnePowerZero(x: nat)
    ensures Power(x, 1) == x
  {
    assert Power(x, 1) == x * Power(x, 0);
  }

  /** The root is the greatest number whose `d`-th power fits in `n`. */
  lemma RootIsGreatest(n: nat, d: nat, x: nat)
    requires d > 0
    ensures Power(x, d) <= n ==> x <= IntRoot(n, d)
  {
    var r := IntRoot(n, d);
    if x > r {
      PowerMonotone(r + 1, x, d);
    }
  }

  /** On a grid of `side ** d` cells the root is `side`. */
  lemma IntRootOfPower(side: nat, d: nat)
    requires d > 0
    ensures IntRoot(Power(side, d), d) == side
  {
    var n := Power(side, d);
    var r := IntRoot(n, d);
    RootIsGreatest(n, d, side);
    PowerStrictlyMonotoneImplies(side, r, d);
  }

  lemma PowerStrictlyMonotoneImplies(x: nat, y: nat, d: nat)
    requires d > 0
    ensures x < y ==> Power(x, d) < Power(y, d)
  {
    if x < y {
      PowerStrictlyMonotone(x, y, d);
    }
  }

  // ---------------------------------------------------------------------
  // The result

  datatype GridSearchResult = GridSearchResult(
    samples: Option<seq<Sample>>,
    lowerLimitsLists: seq<seq<real>>,
    gridPriors: seq<real -> real>,
    noDimensions: nat,
    noSteps: nat,
    sideLength: nat)
  {
    ghost predicate Valid()
    {
      && noSteps == |lowerLimitsLists| && noSteps > 0
      && noDimensions == |lowerLimitsLists[0]| && noDimensions > 0
      && sideLength == IntRoot(noSteps, noDimensions)
      && sideLength > 0
    }

    /** `step_size = 1 / side_length`. */
    function StepSize(): real
      requires Valid()
    {
      1.0 / sideLength as real
    }
  }

  /** `GridSearchResult.__init__`: the number of dimensions is the length of
      the first lower-limit list and the number of steps the number of lists;
      no lists is an IndexError and an empty first list a division by zero. */
  function NewGridSearchResult(samples: Option<seq<Sample>>, lowerLimitsLists: seq<seq<real>>,
                               gridPriors: seq<real -> real>): (r: Result<GridSearchResult, GridError>)
    ensures |lowerLimitsLists| == 0 ==> r == Err(IndexError)
    ensures |lowerLimitsLists| > 0 && |lowerLimitsLists[0]| == 0 ==> r == Err(ZeroDivisionError)
    ensures r.Ok? <==> |lowerLimitsLists| > 0 && |lowerLimitsLists[0]| > 0
    ensures r.Ok? ==> && r.value.Valid()
                      && r.value.noDimensions == |lowerLimitsLists[0]|
                      && r.value.noSteps == |lowerLimitsLists|
                      && r.value.lowerLimitsLists == lowerLimitsLists
                      && r.value.samples == samples
                      && r.value.gridPriors == gridPriors
  {
    if |lowerLimitsLists| == 0 then Err(IndexError)
    else if |lowerLimitsLists[0]| == 0 then Err(ZeroDivisionError)
    else
      var d := |lowerLimitsLists[0]|;
      var n := |lowerLimitsLists|;
      var side := IntRoot(n, d);
      OnePower(d);
      RootIsGreatest(n, d, 1);
      Ok(GridSearchResult(samples, lowerLimitsLists, gridPriors, d, n, side))
  }

  lemma {:induction false} OnePower(d: nat)
    ensures Power(1, d) == 1
  {
    if d > 0 { OnePower(d - 1); }
  }

  /** `shape`: `no_dimensions` copies of the side length. */
  function Shape(g: GridSearchResult): (s: seq<nat>)
    requires g.Valid()
    ensures |s| == g.noDimensions && forall k :: 0 <= k < |s| ==> s[k] == g.sideLength
  {
    seq(g.noDimensions, _ => g.sideLength)
  }

  /** `upper_limits_lists`: every lower limit plus the step size. */
  function UpperLimitsLists(g: GridSearchResult): (r: LimitLists<seq<real>>)
    requires g.Valid()
    ensures r.shape == Shape(g)
    ensures |r.values| == |g.lowerLimitsLists|
    ensures forall i :: 0 <= i < |r.values| ==> |r.values[i]| == |g.lowerLimitsLists[i]|
    ensures forall i, j :: 0 <= i < |r.values| && 0 <= j < |r.values[i]| ==>
      r.values[i][j] - g.lowerLimitsLists[i][j] == g.StepSize()
  {
    var lower := g.lowerLimitsLists;
    LimitLists(seq(|lower|, i requires 0 <= i < |lower| =>
                 seq(|lower[i]|, j requires 0 <= j < |lower[i]| => lower[i][j] + g.StepSize())),
               Shape(g))
  }

  /** `centres_lists`: the midpoints of the lower and upper limits. */
  function CentresLists(g: GridSearchResult): (r: LimitLists<seq<real>>)
    requires g.Valid()
    ensures r.shape == Shape(g)
    ensures |r.values| == |g.lowerLimitsLists|
    ensures forall i :: 0 <= i < |r.values| ==> |r.values[i]| == |g.lowerLimitsLists[i]|
  {
    var lower := g.lowerLimitsLists;
    var upper := UpperLimitsLists(g).values;
    LimitLists(seq(|lower|, i requires 0 <= i < |lower| =>
                 seq(|lower[i]|, j requires 0 <= j < |lower[i]| => (upper[i][j] + lower[i][j]) / 2.0)),
               Shape(g))
  }

  /** Each centre lies half a step above its lower limit and half a step
      below its upper limit. */
  lemma CentresHalfwayInCell(g: GridSearchResult, i: nat, j: nat)
    requires g.Valid() && i < |g.lowerLimitsLists| && j < |g.lowerLimitsLists[i]|
    ensures CentresLists(g).values[i][j] == g.lowerLimitsLists[i][j] + g.StepSize() / 2.0
    ensures CentresLists(g).values[i][j] == UpperLimitsLists(g).values[i][j] - g.StepSize() / 2.0
  {
  }

  /** `_physical_values_for(unit_lists)`: each unit value mapped by the prior
      of its dimension, priors and values paired as `zip` pairs them. */
  function PhysicalValuesFor(g: GridSearchResult, unitLists: seq<seq<real>>): (r: seq<seq<real>>)
    ensures |r| == |unitLists|
    ensures forall i :: 0 <= i < |r| ==>
      && |r[i]| == Min(|g.gridPriors|, |unitLists[i]|)
      && forall j :: 0 <= j < |r[i]| ==> r[i][j] == g.gridPriors[j](unitLists[i][j])
  {
    seq(|unitLists|, i requires 0 <= i < |unitLists| =>
      seq(Min(|g.gridPriors|, |unitLists[i]|), j requires 0 <= j < Min(|g.gridPriors|, |unitLists[i]|) =>
        g.gridPriors[j](unitLists[i][j])))
  }

  function Min(a: nat, b: nat): nat
  {
    if a < b then a else b
  }

  function PhysicalLowerLimitsLists(g: GridSearchResult): (r: LimitLists<seq<real>>)
    requires g.Valid()
    ensures r.values == PhysicalValuesFor(g, g.lowerLimitsLists) && r.shape == Shape(g)
  {
    LimitLists(PhysicalValuesFor(g, g.lowerLimitsLists), Shape(g))
  }

  function PhysicalUpperLimitsLists(g: GridSearchResult): (r: LimitLists<seq<real>>)
    requires g.Valid()
    ensures r.values == PhysicalValuesFor(g, UpperLimitsLists(g).values) && r.shape == Shape(g)
  {
    LimitLists(PhysicalValuesFor(g, UpperLimitsLists(g).values), Shape(g))
  }

  function PhysicalCentresLists(g: GridSearchResult): (r: LimitLists<seq<real>>)
    requires g.Valid()
    ensures r.values == PhysicalValuesFor(g, CentresLists(g).values) && r.shape == Shape(g)
  {
    LimitLists(PhysicalValuesFor(g, CentresLists(g).values), Shape(g))
  }

  /** A uniform prior on `[lo, hi]` maps a unit value linearly. */
  function UniformValueFor(lo: real, hi: real): real -> real
  {
    x => lo + x * (hi - lo)
  }

  /** The two-cell, one-dimensional grid with lower limits 0 and 0.5 has upper
      limits 0.5 and 1, centres 0.25 and 0.75 (physical under a uniform prior
      on [0, 1]), and physical lower limits 0 and `u / 2` under a uniform
      prior on [0, u]. */
  lemma TwoCellGrid(u: real)
    ensures var g := NewGridSearchResult(None, [[0.0], [0.5]], [UniformValueFor(0.0, 1.0)]);
      && g.Ok?
      && Shape(g.value) == [2]
      && UpperLimitsLists(g.value).values == [[0.5], [1.0]]
      && PhysicalCentresLists(g.value).values == [[0.25], [0.75]]
    ensures var g := NewGridSearchResult(None, [[0.0], [0.5]], [UniformValueFor(0.0, u)]);
      g.Ok? && PhysicalLowerLimitsLists(g.value).values == [[0.0], [u / 2.0]]
  {
    TwoCellUnitGrid();
    TwoCellLowerLimits(u);
  }

  lemma TwoCellSideLength(u: real)
    ensures var g := NewGridSearchResult(None, [[0.0], [0.5]], [UniformValueFor(0.0, u)]);
      g.Ok? && g.value.sideLength == 2 && g.value.StepSize() == 0.5
  {
    OnePowerZero(2);
    IntRootOfPower(2, 1);
  }

  lemma TwoCellUnitGrid()
    ensures var g := NewGridSearchResult(None, [[0.0], [0.5]], [UniformValueFor(0.0, 1.0)]);
      && g.Ok?
      && Shape(g.value) == [2]
      && UpperLimitsLists(g.value).values == [[0.5], [1.0]]
      && PhysicalCentresLists(g.value).values == [[0.25], [0.75]]
  {
    TwoCellSideLength(1.0);
    var g := NewGridSearchResult(None, [[0.0], [0.5]], [UniformValueFor(0.0, 1.0)]).value;
    var up := UpperLimitsLists(g).values;
    assert up[0][0] == 0.5 && up[1][0] == 1.0;
    assert up[0] == [0.5] && up[1] == [1.0];
    var c := CentresLists(g).values;
    assert c[0][0] == 0.25 && c[1][0] == 0.75;
    var pc := PhysicalCentresLists(g).values;
    assert pc[0][0] == 0.25 && pc[1][0] == 0.75;
    assert pc[0] == [0.25] && pc[1] == [0.75];
  }

  lemma TwoCellLowerLimits(u: real)
    ensures var g := NewGridSearchResult(None, [[0.0], [0.5]], [UniformValueFor(0.0, u)]);
      g.Ok? && PhysicalLowerLimitsLists(g.value).values == [[0.0], [u / 2.0]]
  {
    TwoCellSideLength(u);
    var gu := NewGridSearchResult(None, [[0.0], [0.5]], [UniformValueFor(0.0, u)]).value;
    var pl := PhysicalLowerLimitsLists(gu).values;
    assert pl[0][0] == 0.0 && pl[1][0] == u / 2.0;
    assert pl[0] == [0.0] && pl[1] == [u / 2.0];
  }

  // ---------------------------------------------------------------------
  // Samples

  /** `max(self.samples, key=log_likelihood)`: the first sample of greatest
      log likelihood. */
  function BestIndex(samples: seq<Sample>): (b: nat)
    requires |samples| > 0
    ensures b < |samples|
    ensures forall k :: 0 <= k < |samples| ==> samples[k].logLikelihood <= samples[b].logLikelihood
    ensures forall k :: 0 <= k < b ==> samples[k].logLikelihood < samples[b].logLikelihood
  {
    if |samples| == 1 then 0
    else
      var b := BestIndex(samples[..|samples| - 1]);
      assert forall k :: 0 <= k < |samples| - 1 ==> samples[k] == samples[..|samples| - 1][k];
      if samples[|samples| - 1].logLikelihood > samples[b].logLikelihood then |samples| - 1 else b
  }

  /** `best_samples`: no samples is a TypeError, an empty list a ValueError. */
  function BestSamples(g: GridSearchResult): (r: Result<Sample, GridError>)
    ensures r.Ok? <==> g.samples.Some? && |g.samples.value| > 0
    ensures g.samples.None? ==> r == Err(TypeError)
    ensures r.Ok? ==> (r.value in g.samples.value
      && forall s :: s in g.samples.value ==> s.logLikelihood <= r.value.logLikelihood)
  {
    if g.samples.None? then Err(TypeError)
    else if |g.samples.value| == 0 then Err(ValueError)
    else Ok(g.samples.value[BestIndex(g.samples.value)])
  }

  /** `log_likelihoods(relative_to_value)`. */
  function LogLikelihoods(g: GridSearchResult, relativeToValue: real): (r: Result<LimitLists<real>, GridError>)
    requires g.Valid()
    ensures r.Ok? <==> g.samples.Some?
    ensures r.Ok? ==> && r.value.shape == Shape(g)
                      && |r.value.values| == |g.samples.value|
                      && forall k :: 0 <= k < |r.value.values| ==>
                           r.value.values[k] + relativeToValue == g.samples.value[k].logLikelihood
  {
    if g.samples.None? then Err(TypeError)
    else
      var s := g.samples.value;
      Ok(LimitLists(seq(|s|, k requires 0 <= k < |s| => s[k].logLikelihood - relativeToValue), Shape(g)))
  }

  /** `log_evidences(relative_to_value)`. */
  function LogEvidences(g: GridSearchResult, relativeToValue: real): (r: Result<LimitLists<real>, GridError>)
    requires g.Valid()
    ensures r.Ok? <==> g.samples.Some?
    ensures r.Ok? ==> && r.value.shape == Shape(g)
                      && |r.value.values| == |g.samples.value|
                      && forall k :: 0 <= k < |r.value.values| ==>
                           r.value.values[k] + relativeToValue == g.samples.value[k].logEvidence
  {
    if g.samples.None? then Err(TypeError)
    else
      var s := g.samples.value;
      Ok(LimitLists(seq(|s|, k requires 0 <= k < |s| => s[k].logEvidence - relativeToValue), Shape(g)))
  }

  /** `figure_of_merits(use_log_evidences, relative_to_value)`. */
  function FigureOfMerits(g: GridSearchResult, useLogEvidences: bool, relativeToValue: real)
    : (r: Result<LimitLists<real>, GridError>)
    requires g.Valid()
    ensures useLogEvidences ==> r == LogEvidences(g, relativeToValue)
    ensures !useLogEvidences ==> r == LogLikelihoods(g, relativeToValue)
  {
    if useLogEvidences then LogEvidences(g, relativeToValue) else LogLikelihoods(g, relativeToValue)
  }

  /** The best sample also has the greatest relative log likelihood. */
  lemma BestHasGreatestLogLikelihood(g: GridSearchResult, relativeToValue: real)
    requires g.Valid() && g.samples.Some? && |g.samples.value| > 0
    ensures var ls := LogLikelihoods(g, relativeToValue).value.values;
      forall k :: 0 <= k < |ls| ==> ls[k] <= BestSamples(g).value.logLikelihood - relativeToValue
  {
  }

  // ---------------------------------------------------------------------
  // physical_step_sizes

  function Abs(x: real): real
  {
    if x < 0.0 then -x else x
  }

  /** `[abs(values[n] - values[n - 1]) for n in range(1, len(values))]`. */
  function Diffs(values: seq<real>): (r: seq<real>)
    ensures |r| == if |values| == 0 then 0 else |values| - 1
    ensures forall n :: 0 <= n < |r| ==> r[n] == Abs(values[n + 1] - values[n])
  {
    if |values| < 2 then []
    else
      var r := seq(|values| - 1, n requires 0 <= n < |values| - 1 => Abs(values[n + 1] - values[n]));
      assert forall n :: 0 <= n < |r| ==> r[n] == Abs(values[n + 1] - values[n]);
      r
  }

  function SeqMax(s: seq<real>): (m: real)
    requires |s| > 0
    ensures m in s && forall k :: 0 <= k < |s| ==> s[k] <= m
  {
    if |s| == 1 then s[0]
    else
      var rest := SeqMax(s[1..]);
      assert forall k :: 1 <= k < |s| ==> s[k] == s[1..][k - 1];
      if s[0] >= rest then s[0] else rest
  }

  function SeqMin(s: seq<real>): (m: real)
    requires |s| > 0
    ensures m in s && forall k :: 0 <= k < |s| ==> m <= s[k]
  {
    if |s| == 1 then s[0]
    else
      var rest := SeqMin(s[1..]);
      assert forall k :: 1 <= k < |s| ==> s[k] == s[1..][k - 1];
      if s[0] <= rest then s[0] else rest
  }

  /** One iteration of the `physical_step_sizes` loop: the dimension's
      physical lower limits (an IndexError when a list has no value there),
      then the largest consecutive difference for dimension 0, the smallest
      for dimension 1 (an empty difference list is numpy's ValueError), and
      a GridSearchException for any other dimension. */
  function DimensionStepSize(physicalLower: seq<seq<real>>, dim: nat): (r: Result<real, GridError>)
  {
    if !Covers(physicalLower, dim) then Err(IndexError)
    else
      var diff := Diffs(Column(physicalLower, dim));
      if dim == 0 then (if |diff| == 0 then Err(ValueError) else Ok(SeqMax(diff)))
      else if dim == 1 then (if |diff| == 0 then Err(ValueError) else Ok(SeqMin(diff)))
      else Err(GridSearchException("This feature does not support > 2 dimensions"))
  }

  /** Every list has a value in dimension `dim`. */
  predicate Covers(lists: seq<seq<real>>, dim: nat)
  {
    forall i :: 0 <= i < |lists| ==> dim < |lists[i]|
  }

  /** `[value[dim] for value in lists]`. */
  function Column(lists: seq<seq<real>>, dim: nat): (r: seq<real>)
    requires Covers(lists, dim)
    ensures |r| == |lists| && forall i :: 0 <= i < |r| ==> r[i] == lists[i][dim]
  {
    seq(|lists|, i requires 0 <= i < |lists| => lists[i][dim])
  }

  /** The step sizes of the first `n` dimensions, or the first error. */
  function StepSizesSpec(physicalLower: seq<seq<real>>, n: nat): (r: Result<seq<real>, GridError>)
    ensures r.Ok? ==> |r.value| == n
  {
    if n == 0 then Ok([])
    else
      var sizes :- StepSizesSpec(physicalLower, n - 1);
      var size :- DimensionStepSize(physicalLower, n - 1);
      Ok(sizes + [size])
  }

  /** `physical_step_sizes`. */
  method PhysicalStepSizes(g: GridSearchResult) returns (r: Result<seq<real>, GridError>)
    requires g.Valid()
    ensures r == StepSizesSpec(PhysicalLowerLimitsLists(g).values, g.noDimensions)
  {
    var physicalLower := PhysicalLowerLimitsLists(g).values;
    var sizes: seq<real> := [];
    for dim := 0 to g.noDimensions
      invariant StepSizesSpec(physicalLower, dim) == Ok(sizes)
    {
      var size := DimensionStepSize(physicalLower, dim);
      if size.Err? {
        assert forall n :: dim < n ==> StepSizesSpec(physicalLower, n) == Err(size.error) by {
          StepSizesErrPersists(physicalLower, dim, size.error);
        }
        return Err(size.error);
      }
      sizes := sizes + [size.value];
    }
    return Ok(sizes);
  }

  /** Once a dimension fails, every longer prefix fails with the same error. */
  lemma StepSizesErrPersists(physicalLower: seq<seq<real>>, dim: nat, e: GridError)
    requires StepSizesSpec(physicalLower, dim).Ok? && DimensionStepSize(physicalLower, dim) == Err(e)
    ensures forall n :: dim < n ==> StepSizesSpec(physicalLower, n) == Err(e)
  {
    forall n | dim < n ensures StepSizesSpec(physicalLower, n) == Err(e) {
      StepSizesErrAt(physicalLower, dim, e, n);
    }
  }

  lemma {:induction false} StepSizesErrAt(physicalLower: seq<seq<real>>, dim: nat, e: GridError, n: nat)
    requires StepSizesSpec(physicalLower, dim).Ok? && DimensionStepSize(physicalLower, dim) == Err(e)
    requires dim < n
    ensures StepSizesSpec(physicalLower, n) == Err(e)
    decreases n
  {
    if n - 1 > dim {
      StepSizesErrAt(physicalLower, dim, e, n - 1);
    }
  }

  /** The gap between cells `k` and `k + 1` along dimension `dim`. */
  function Gap(lists: seq<seq<real>>, dim: nat, k: nat): real
    requires k + 1 < |lists| && dim < |lists[k]| && dim < |lists[k + 1]|
  {
    Abs(lists[k + 1][dim] - lists[k][dim])
  }

  /** `size` is one of the gaps along `dim` and no gap is larger. */
  predicate IsLargestGap(lists: seq<seq<real>>, dim: nat, size: real)
    requires Covers(lists, dim)
  {
    && (exists k :: 0 <= k < |lists| - 1 && size == Gap(lists, dim, k))
    && forall k :: 0 <= k < |lists| - 1 ==> Gap(lists, dim, k) <= size
  }

  /** `size` is one of the gaps along `dim` and no gap is smaller. */
  predicate IsSmallestGap(lists: seq<seq<real>>, dim: nat, size: real)
    requires Covers(lists, dim)
  {
    && (exists k :: 0 <= k < |lists| - 1 && size == Gap(lists, dim, k))
    && forall k :: 0 <= k < |lists| - 1 ==> size <= Gap(lists, dim, k)
  }

  /** The differences of a column are its gaps. */
  lemma DiffsAreGaps(lists: seq<seq<real>>, dim: nat)
    requires |lists| >= 1 && Covers(lists, dim)
    ensures var diff := Diffs(Column(lists, dim));
      |diff| == |lists| - 1 && forall k :: 0 <= k < |diff| ==> diff[k] == Gap(lists, dim, k)
  {
    var col := Column(lists, dim);
    forall k | 0 <= k < |lists| - 1 ensures Diffs(col)[k] == Gap(lists, dim, k) {
      assert col[k] == lists[k][dim] && col[k + 1] == lists[k + 1][dim];
    }
  }

  /** The largest difference of a column is its largest gap. */
  lemma LargestDiff(lists: seq<seq<real>>, dim: nat)
    requires |lists| >= 2 && Covers(lists, dim)
    ensures |Diffs(Column(lists, dim))| > 0
    ensures IsLargestGap(lists, dim, SeqMax(Diffs(Column(lists, dim))))
  {
    var diff := Diffs(Column(lists, dim));
    DiffsAreGaps(lists, dim);
    LargestOfGaps(lists, dim, diff, SeqMax(diff));
  }

  /** The smallest difference of a column is its smallest gap. */
  lemma SmallestDiff(lists: seq<seq<real>>, dim: nat)
    requires |lists| >= 2 && Covers(lists, dim)
    ensures |Diffs(Column(lists, dim))| > 0
    ensures IsSmallestGap(lists, dim, SeqMin(Diffs(Column(lists, dim))))
  {
    var diff := Diffs(Column(lists, dim));
    DiffsAreGaps(lists, dim);
    SmallestOfGaps(lists, dim, diff, SeqMin(diff));
  }

  /** Along the first dimension of a grid of two or more cells, the step size
      is the largest gap. */
  lemma FirstDimensionStepSize(physicalLower: seq<seq<real>>)
    requires |physicalLower| >= 2 && Covers(physicalLower, 0)
    ensures DimensionStepSize(physicalLower, 0).Ok?
    ensures IsLargestGap(physicalLower, 0, DimensionStepSize(physicalLower, 0).value)
  {
    LargestDiff(physicalLower, 0);
  }

  lemma LargestOfGaps(lists: seq<seq<real>>, dim: nat, diff: seq<real>, size: real)
    requires Covers(lists, dim) && |diff| == |lists| - 1
    requires forall k :: 0 <= k < |diff| ==> diff[k] == Gap(lists, dim, k)
    requires size in diff && forall k :: 0 <= k < |diff| ==> diff[k] <= size
    ensures IsLargestGap(lists, dim, size)
  {
    var k :| 0 <= k < |diff| && diff[k] == size;
    assert size == Gap(lists, dim, k);
  }

  /** Along the second dimension of a grid of two or more cells, the step
      size is the smallest gap. */
  lemma SecondDimensionStepSize(physicalLower: seq<seq<real>>)
    requires |physicalLower| >= 2 && Covers(physicalLower, 1)
    ensures DimensionStepSize(physicalLower, 1).Ok?
    ensures IsSmallestGap(physicalLower, 1, DimensionStepSize(physicalLower, 1).value)
  {
    SmallestDiff(physicalLower, 1);
  }

  lemma SmallestOfGaps(lists: seq<seq<real>>, dim: nat, diff: seq<real>, size: real)
    requires Covers(lists, dim) && |diff| == |lists| - 1
    requires forall k :: 0 <= k < |diff| ==> diff[k] == Gap(lists, dim, k)
    requires size in diff && forall k :: 0 <= k < |diff| ==> size <= diff[k]
    ensures IsSmallestGap(lists, dim, size)
  {
    var k :| 0 <= k < |diff| && diff[k] == size;
    assert size == Gap(lists, dim, k);
  }

  /** A one-dimensional grid of two or more cells has a single step size,
      its largest gap. */
  lemma OneDimensionalStepSizes(physicalLower: seq<seq<real>>)
    requires |physicalLower| >= 2 && Covers(physicalLower, 0)
    ensures StepSizesSpec(physicalLower, 1).Ok?
    ensures IsLargestGap(physicalLower, 0, StepSizesSpec(physicalLower, 1).value[0])
  {
    FirstDimensionStepSize(physicalLower);
    assert StepSizesSpec(physicalLower, 0) == Ok([]);
    assert [] + [DimensionStepSize(physicalLower, 0).value] == [DimensionStepSize(physicalLower, 0).value];
    assert StepSizesSpec(physicalLower, 1) == Ok([DimensionStepSize(physicalLower, 0).value]);
  }

  /** A two-dimensional grid of two or more cells has the largest gap along
      the first dimension and the smallest along the second as step sizes. */
  lemma TwoDimensionalStepSizes(physicalLower: seq<seq<real>>)
    requires |physicalLower| >= 2 && Covers(physicalLower, 0) && Covers(physicalLower, 1)
    ensures StepSizesSpec(physicalLower, 2).Ok?
    ensures IsLargestGap(physicalLower, 0, StepSizesSpec(physicalLower, 2).value[0])
    ensures IsSmallestGap(physicalLower, 1, StepSizesSpec(physicalLower, 2).value[1])
  {
    OneDimensionalStepSizes(physicalLower);
    SecondDimensionStepSize(physicalLower);
    var first := StepSizesSpec(physicalLower, 1).value;
    assert StepSizesSpec(physicalLower, 2) == Ok(first + [DimensionStepSize(physicalLower, 1).value]);
  }

  /** A grid of three or more dimensions has no step sizes. */
  lemma NoStepSizesBeyondTwoDimensions(physicalLower: seq<seq<real>>, d: nat)
    requires d >= 3
    ensures StepSizesSpec(physicalLower, d).Err?
  {
    if StepSizesSpec(physicalLower, 2).Ok? {
      assert DimensionStepSize(physicalLower, 2).Err?;
      StepSizesErrPersists(physicalLower, 2, DimensionStepSize(physicalLower, 2).error);
    } else {
      StepSizesErrMonotone(physicalLower, 2, d);
    }
  }

  /** A failure in the first `m` dimensions is a failure of any longer prefix. */
  lemma {:induction false} StepSizesErrMonotone(physicalLower: seq<seq<real>>, m: nat, n: nat)
    requires m <= n && StepSizesSpec(physicalLower, m).Err?
    ensures StepSizesSpec(physicalLower, n).Err?
    decreases n
  {
    if m < n {
      StepSizesErrMonotone(physicalLower, m, n - 1);
    }
  }
}
