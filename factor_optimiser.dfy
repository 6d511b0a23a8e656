/** Damping selection and exact fits of a single factor during expectation
    propagation (autofit/graphical/expectation_propagation/factor_optimiser.py).

    The EP mean field itself (`EPMeanField`) is defined elsewhere and is not
    part of this model beyond what the factor optimiser does with it: it
    holds a mean field per factor and a count of the messages each variable
    takes part in, it can be copied, and one factor's mean field can be
    replaced. Its `factor_approximation` (the cavity distribution) and
    `project_mean_field` are passed in as functions. */
module FactorOptimiser {
  import opened Wrappers
  import opened EPStatus
  import Messages

  type Factor = string
  type Variable = string

  /** A mean field: one message per variable. */
  type MeanField = map<Variable, Messages.Message>

  /** The damping handed to `project_mean_field`: one number, or one number
      per variable in the order of the message counts. */
  datatype Delta = Uniform(d: real) | PerVariable(ds: seq<(Variable, real)>)

  datatype OptimiserError =
    | ValueError(msg: string)
    | ZeroDivisionError
    | NotImplementedError(msg: string)

  /** The settings of an `AbstractFactorOptimiser`. */
  datatype FactorOptimiser = FactorOptimiser(
    initialValues: MeanField,
    deltas: map<Factor, real>,
    inplace: bool,
    delta: real,
    dynamicDelta: bool)

  /** `AbstractFactorOptimiser.__init__`: `initial_values` and `deltas`
      default to empty maps (None and an empty dict are both falsy), the rest
      is stored as given. */
  function NewFactorOptimiser(
    initialValues: Option<MeanField>, deltas: Option<map<Factor, real>>,
    inplace: bool, delta: real, dynamicDelta: bool): (o: FactorOptimiser)
    ensures o.initialValues == initialValues.GetOr(map[])
    ensures o.deltas == deltas.GetOr(map[])
    ensures o.inplace == inplace && o.delta == delta && o.dynamicDelta == dynamicDelta
  {
    FactorOptimiser(initialValues.GetOr(map[]), deltas.GetOr(map[]), inplace, delta, dynamicDelta)
  }

  /** `min(variable_message_count.values())` over a non-empty count list. */
  function MinCount(counts: seq<(Variable, nat)>): (m: nat)
    requires |counts| > 0
    ensures exists k :: 0 <= k < |counts| && counts[k].1 == m
    ensures forall k :: 0 <= k < |counts| ==> m <= counts[k].1
  {
    if |counts| == 1 then counts[0].1
    else
      var rest := MinCount(counts[1..]);
      assert forall k :: 1 <= k < |counts| ==> counts[k] == counts[1..][k - 1];
      if counts[0].1 <= rest then counts[0].1 else rest
  }

  predicate AllPositive(counts: seq<(Variable, nat)>)
  {
    forall k :: 0 <= k < |counts| ==> counts[k].1 > 0
  }

  /** `base * (min_value / count)`. */
  function Damping(base: real, minValue: nat, count: nat): real
    requires count > 0
  {
    base * (minValue as real / count as real)
  }

  /** A variable in the fewest messages is damped by exactly `base`, and one
      in more messages by at most `base` when `base` is non-negative. */
  lemma DampingBounded(base: real, minValue: nat, count: nat)
    requires 0 < count && minValue <= count
    ensures count == minValue ==> Damping(base, minValue, count) == base
    ensures base >= 0.0 ==> Damping(base, minValue, count) <= base
  {
    var q := minValue as real / count as real;
    assert q * (count as real) == minValue as real;
    assert 0.0 <= q <= 1.0;
    if base >= 0.0 {
      assert base * q <= base * 1.0;
    }
  }

  /** `{v: base * (min_value / count) for v, count in counts}`. */
  function DynamicDeltas(base: real, minValue: nat, counts: seq<(Variable, nat)>): (r: seq<(Variable, real)>)
    requires AllPositive(counts)
    ensures |r| == |counts|
    ensures forall k :: 0 <= k < |r| ==> r[k] == (counts[k].0, Damping(base, minValue, counts[k].1))
  {
    seq(|counts|, k requires 0 <= k < |counts| => (counts[k].0, Damping(base, minValue, counts[k].1)))
  }

  /** Under dynamic damping the variables in the fewest messages get exactly
      `base` and, for a non-negative `base`, no variable gets more. */
  lemma DynamicDeltasBounded(base: real, counts: seq<(Variable, nat)>)
    requires |counts| > 0 && AllPositive(counts)
    ensures var ds := DynamicDeltas(base, MinCount(counts), counts);
      && (forall k :: 0 <= k < |ds| && counts[k].1 == MinCount(counts) ==> ds[k].1 == base)
      && (base >= 0.0 ==> forall k :: 0 <= k < |ds| ==> ds[k].1 <= base)
  {
    var m := MinCount(counts);
    forall k | 0 <= k < |counts| ensures counts[k].1 == m ==> Damping(base, m, counts[k].1) == base
                                 ensures base >= 0.0 ==> Damping(base, m, counts[k].1) <= base
    {
      DampingBounded(base, m, counts[k].1);
    }
  }

  /** The damping `update_model_approx` passes on. The message counts are
      read first, so no counts at all is the ValueError of `min`. A factor
      with its own entry in `deltas` uses it; otherwise `dynamic_delta`
      damps each variable by `self.delta * min_count / count`, ignoring the
      argument; otherwise the argument is used unless it is falsy (None or
      0), in which case `self.delta` is. */
  function SelectDelta(self: FactorOptimiser, factor: Factor, counts: seq<(Variable, nat)>, delta: Option<real>)
    : (r: Result<Delta, OptimiserError>)
    ensures r.Err? && r.error.ValueError? <==> |counts| == 0
    ensures |counts| > 0 && factor in self.deltas ==> r == Ok(Uniform(self.deltas[factor]))
    ensures |counts| > 0 && factor !in self.deltas && !self.dynamicDelta ==>
      r == Ok(Uniform(if delta.None? || delta.value == 0.0 then self.delta else delta.value))
    ensures |counts| > 0 && factor !in self.deltas && self.dynamicDelta ==>
      (r.Ok? <==> AllPositive(counts))
    ensures r.Ok? && r.value.PerVariable? ==>
      && |counts| > 0 && AllPositive(counts)
      && |r.value.ds| == |counts|
      && forall k :: 0 <= k < |counts| ==>
           r.value.ds[k] == (counts[k].0, Damping(self.delta, MinCount(counts), counts[k].1))
  {
    if |counts| == 0 then Err(ValueError("min() arg is an empty sequence"))
    else
      var minValue := MinCount(counts);
      var d := if delta.None? || delta.value == 0.0 then self.delta else delta.value;
      if factor in self.deltas then Ok(Uniform(self.deltas[factor]))
      else if self.dynamicDelta then
        if AllPositive(counts) then Ok(PerVariable(DynamicDeltas(self.delta, minValue, counts)))
        else Err(ZeroDivisionError)
      else Ok(Uniform(d))
  }

  /** On the dynamic path the damping does not depend on the `delta` argument. */
  lemma DynamicIgnoresDeltaArgument(self: FactorOptimiser, factor: Factor, counts: seq<(Variable, nat)>, d1: Option<real>, d2: Option<real>)
    requires factor !in self.deltas && self.dynamicDelta
    ensures SelectDelta(self, factor, counts, d1) == SelectDelta(self, factor, counts, d2)
  {
  }

  /** What `project_mean_field` is asked to do: project `newModelDist` for
      `factor` into the approximation whose factor mean fields are `current`. */
  datatype Projection = Projection(
    current: map<Factor, MeanField>, factor: Factor, newModelDist: MeanField, delta: Delta, status: Status)

  /** `update_model_approx`: `project_mean_field` receives the new
      distribution, the chosen damping and the incoming status unchanged. */
  function UpdateModelApprox<A>(
    self: FactorOptimiser, current: map<Factor, MeanField>, counts: seq<(Variable, nat)>,
    factor: Factor, newModelDist: MeanField, status: Status, delta: Option<real>,
    project: Projection -> A): (r: Result<A, OptimiserError>)
    ensures r.Ok? <==> SelectDelta(self, factor, counts, delta).Ok?
    ensures r.Ok? ==>
      r.value == project(Projection(current, factor, newModelDist, SelectDelta(self, factor, counts, delta).value, status))
    ensures r.Err? ==> r.error == SelectDelta(self, factor, counts, delta).error
  {
    var d :- SelectDelta(self, factor, counts, delta);
    Ok(project(Projection(current, factor, newModelDist, d, status)))
  }

  /** The part of an `EPMeanField` the factor optimiser uses. */
  class EPMeanField {
    var factorMeanFields: map<Factor, MeanField>
    var variableMessageCount: seq<(Variable, nat)>

    constructor (factorMeanFields: map<Factor, MeanField>, variableMessageCount: seq<(Variable, nat)>)
      ensures this.factorMeanFields == factorMeanFields
      ensures this.variableMessageCount == variableMessageCount
    {
      this.factorMeanFields := factorMeanFields;
      this.variableMessageCount := variableMessageCount;
    }

    /** `copy()`: a new approximation with the same contents. */
    method Copy() returns (c: EPMeanField)
      ensures fresh(c)
      ensures c.factorMeanFields == factorMeanFields && c.variableMessageCount == variableMessageCount
    {
      c := new EPMeanField(factorMeanFields, variableMessageCount);
    }

    /** `update_factor_mean_field(factor, mean_field)`: the factor's mean
        field is replaced; nothing else changes. */
    method UpdateFactorMeanField(factor: Factor, meanField: MeanField)
      modifies this
      ensures factorMeanFields == old(factorMeanFields)[factor := meanField]
      ensures variableMessageCount == old(variableMessageCount)
    {
      factorMeanFields := factorMeanFields[factor := meanField];
    }
  }

  /** A factor as `exact_fit` sees it: its name and whichever of
      `calc_exact_update` and `calc_exact_projection` it implements, each a
      map from the cavity distribution to a mean field. */
  datatype ExactFactor = ExactFactor(
    name: Factor,
    exactUpdate: Option<MeanField -> MeanField>,
    exactProjection: Option<MeanField -> MeanField>)

  /** `exact_fit(factor, model_approx, status)`. `cavity` stands for
      `model_approx.factor_approximation(factor).cavity_dist`, `project` for
      `project_mean_field`, and `warnings` for the messages of the warnings
      raised meanwhile, which are appended to the status. */
  method ExactFit(
    self: FactorOptimiser, factor: ExactFactor, modelApprox: EPMeanField, status: Status,
    cavity: (map<Factor, MeanField>, Factor) -> MeanField,
    project: Projection -> (map<Factor, MeanField>, Status),
    warnings: seq<string>)
    returns (r: Result<(EPMeanField, Status), OptimiserError>)
    modifies modelApprox
    ensures factor.exactUpdate.Some? ==>
      && r.Ok?
      && (self.inplace ==> r.value.0 == modelApprox)
      && (!self.inplace ==> fresh(r.value.0) && unchanged(modelApprox))
      && r.value.0.factorMeanFields ==
           old(modelApprox.factorMeanFields)[factor.name :=
             factor.exactUpdate.value(cavity(old(modelApprox.factorMeanFields), factor.name))]
      && r.value.0.variableMessageCount == old(modelApprox.variableMessageCount)
      && r.value.1 == WithMessages(status, warnings)
    ensures factor.exactUpdate.None? && factor.exactProjection.Some? ==>
      && unchanged(modelApprox)
      && var current := modelApprox.factorMeanFields;
         var newDist := factor.exactProjection.value(cavity(current, factor.name));
         var u := UpdateModelApprox(self, current, modelApprox.variableMessageCount, factor.name, newDist,
                                    status, None, project);
         && r.Ok? == u.Ok?
         && (r.Err? ==> r.error == u.error)
         && (r.Ok? ==> fresh(r.value.0)
                       && r.value.0.factorMeanFields == u.value.0
                       && r.value.0.variableMessageCount == modelApprox.variableMessageCount
                       && r.value.1 == WithMessages(u.value.1, warnings))
    ensures factor.exactUpdate.None? && factor.exactProjection.None? ==>
      r.Err? && r.error.NotImplementedError? && unchanged(modelApprox)
  {
    if factor.exactUpdate.Some? {
      var cavityDist := cavity(modelApprox.factorMeanFields, factor.name);
      var newApprox: EPMeanField;
      if self.inplace {
        newApprox := modelApprox;
      } else {
        newApprox := modelApprox.Copy();
      }
      newApprox.UpdateFactorMeanField(factor.name, factor.exactUpdate.value(cavityDist));
      r := Ok((newApprox, WithMessages(status, warnings)));
    } else if factor.exactProjection.Some? {
      var newDist := factor.exactProjection.value(cavity(modelApprox.factorMeanFields, factor.name));
      var u := UpdateModelApprox(self, modelApprox.factorMeanFields, modelApprox.variableMessageCount,
                                 factor.name, newDist, status, None, project);
      if u.Err? {
        r := Err(u.error);
      } else {
        var newApprox := new EPMeanField(u.value.0, modelApprox.variableMessageCount);
        r := Ok((newApprox, WithMessages(u.value.1, warnings)));
      }
    } else {
      r := Err(NotImplementedError("Factor does not have exact updates methods"));
    }
  }
}
