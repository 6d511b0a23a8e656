/** The Laplace factor optimiser (autofit/graphical/laplace/optimiser.py):
    it prepares a quasi-Newton optimisation state for one factor, runs the
    quasi-Newton optimiser with its default keyword arguments overridden by
    the caller's, and when that does not succeed refines the starting state
    with random draws.

    The `newton` module, the `MeanField` methods and the factor
    approximation are not part of this model: they are passed in as an
    environment of functions, and a Hessian is represented by the call that
    made it. */
module Laplace {
  import opened Wrappers
  import opened EPStatus

  type Variable = string

  /** `VariableData`: a value per variable. */
  type Values = map<Variable, real>

  /** A keyword-argument value: a number, a callable (by name) or a nested
      keyword dictionary. */
  datatype Value = IntValue(i: int) | Callable(name: string) | KwsValue(kws: map<string, Value>)

  type Kws = map<string, Value>

  /** A mean field, as far as this file uses it: a name for it and the
      mean of each of its variables. */
  datatype MeanField = MeanField(name: string, mean: Values)

  /** A factor approximation: its model distribution and its free and
      deterministic variables. */
  datatype FactorApprox = FactorApprox(modelDist: MeanField, freeVariables: seq<Variable>, deterministicVariables: seq<Variable>)

  /** `make_hessian(mean_field, variables, **kws)`, recorded as the call. */
  datatype Hessian = Hessian(maker: string, meanField: MeanField, variables: seq<Variable>, kws: Kws)

  /** `newton.OptimisationState` without its gradient function. */
  datatype OptState = OptState(factorApprox: FactorApprox, parameters: Values, hessian: Hessian, detHessian: Option<Hessian>)

  /** The settings of a `LaplaceOptimiser` after `__init__`. */
  datatype LaplaceOptimiser = LaplaceOptimiser(
    makeHessian: string,
    makeDetHessian: string,
    searchDirection: string,
    calcLineSearch: string,
    quasiNewtonUpdate: string,
    stopConditions: string,
    maxIter: int,
    nRefine: int,
    hessianKws: Kws,
    detHessianKws: Kws,
    searchDirectionKws: Kws,
    lineSearchKws: Kws,
    quasiNewtonKws: Kws,
    stopKws: Kws,
    deltas: map<string, real>)

  /** `x or {}` for an optional keyword dictionary: None and `{}` are falsy. */
  function OrEmpty(k: Option<Kws>): (r: Kws)
    ensures k.Some? ==> r == k.value
    ensures k.None? ==> r == map[]
  {
    if k.Some? then k.value else map[]
  }

  predicate Truthy(k: Option<Kws>)
  {
    k.Some? && |k.value| > 0
  }

  /** `LaplaceOptimiser.__init__`. */
  function NewLaplaceOptimiser(
    makeHessian: string, searchDirection: string, calcLineSearch: string, quasiNewtonUpdate: string,
    stopConditions: string, makeDetHessian: Option<string>, maxIter: int, nRefine: int,
    hessianKws: Option<Kws>, detHessianKws: Option<Kws>, searchDirectionKws: Option<Kws>,
    lineSearchKws: Option<Kws>, quasiNewtonKws: Option<Kws>, stopKws: Option<Kws>,
    deltas: Option<map<string, real>>): (o: LaplaceOptimiser)
    ensures o.makeDetHessian == (if makeDetHessian.Some? then makeDetHessian.value else makeHessian)
    ensures o.hessianKws == OrEmpty(hessianKws)
    ensures Truthy(detHessianKws) ==> o.detHessianKws == detHessianKws.value
    ensures !Truthy(detHessianKws) ==> o.detHessianKws == OrEmpty(hessianKws)
    ensures o.maxIter == maxIter && o.nRefine == nRefine
    ensures o.deltas == deltas.GetOr(map[])
    ensures o.makeHessian == makeHessian && o.searchDirection == searchDirection
    ensures o.calcLineSearch == calcLineSearch && o.quasiNewtonUpdate == quasiNewtonUpdate
    ensures o.stopConditions == stopConditions
    ensures o.searchDirectionKws == OrEmpty(searchDirectionKws) && o.lineSearchKws == OrEmpty(lineSearchKws)
    ensures o.quasiNewtonKws == OrEmpty(quasiNewtonKws) && o.stopKws == OrEmpty(stopKws)
  {
    LaplaceOptimiser(
      makeHessian,
      if makeDetHessian.Some? then makeDetHessian.value else makeHessian,
      searchDirection, calcLineSearch, quasiNewtonUpdate, stopConditions,
      maxIter, nRefine,
      OrEmpty(hessianKws),
      if Truthy(detHessianKws) then detHessianKws.value else OrEmpty(hessianKws),
      OrEmpty(searchDirectionKws), OrEmpty(lineSearchKws), OrEmpty(quasiNewtonKws), OrEmpty(stopKws),
      deltas.GetOr(map[]))
  }

  /** The `default_kws` property. */
  function DefaultKws(self: LaplaceOptimiser): (r: Kws)
    ensures r.Keys == {"max_iter", "n_refine", "search_direction", "calc_line_search", "quasi_newton_update",
                       "stop_conditions", "search_direction_kws", "line_search_kws", "quasi_newton_kws", "stop_kws"}
    ensures r["max_iter"] == IntValue(self.maxIter) && r["n_refine"] == IntValue(self.nRefine)
    ensures r["quasi_newton_update"] == Callable(self.quasiNewtonUpdate)
    ensures r["search_direction"] == Callable(self.searchDirection)
    ensures r["calc_line_search"] == Callable(self.calcLineSearch)
    ensures r["stop_conditions"] == Callable(self.stopConditions)
    ensures r["search_direction_kws"] == KwsValue(self.searchDirectionKws)
    ensures r["line_search_kws"] == KwsValue(self.lineSearchKws)
    ensures r["quasi_newton_kws"] == KwsValue(self.quasiNewtonKws)
    ensures r["stop_kws"] == KwsValue(self.stopKws)
  {
    map[
      "max_iter" := IntValue(self.maxIter),
      "n_refine" := IntValue(self.nRefine),
      "search_direction" := Callable(self.searchDirection),
      "calc_line_search" := Callable(self.calcLineSearch),
      "quasi_newton_update" := Callable(self.quasiNewtonUpdate),
      "stop_conditions" := Callable(self.stopConditions),
      "search_direction_kws" := KwsValue(self.searchDirectionKws),
      "line_search_kws" := KwsValue(self.lineSearchKws),
      "quasi_newton_kws" := KwsValue(self.quasiNewtonKws),
      "stop_kws" := KwsValue(self.stopKws)
    ]
  }

  /** `{**self.default_kws, **kwargs}`. */
  function MergedKws(self: LaplaceOptimiser, kwargs: Kws): Kws
  {
    DefaultKws(self) + kwargs
  }

  /** The caller's keyword arguments win; every other default is kept, and
      nothing else is added. */
  lemma CallerOverridesDefaults(self: LaplaceOptimiser, kwargs: Kws)
    ensures var m := MergedKws(self, kwargs);
      && m.Keys == DefaultKws(self).Keys + kwargs.Keys
      && (forall k :: k in kwargs ==> m[k] == kwargs[k])
      && (forall k :: k in DefaultKws(self) && k !in kwargs ==> m[k] == DefaultKws(self)[k])
  {
  }

  /** The hidden collaborators. `quasiNewton` is `newton.optimise_quasi_newton`,
      `qnUpdate` applies the quasi-Newton update named by the optimiser,
      `fromOptState` is `MeanField.from_opt_state`, `factorApproximation`
      is `EPMeanField.factor_approximation`, and `updateModelApprox` is the
      base class's `update_model_approx`. */
  datatype Env<!A> = Env(
    quasiNewton: (OptState, Option<OptState>, Kws) -> (OptState, Status),
    qnUpdate: (string, OptState, OptState, Kws) -> OptState,
    fromOptState: (MeanField, OptState) -> MeanField,
    factorApproximation: (A, string) -> FactorApprox,
    updateModelApprox: (MeanField, FactorApprox, A, Status) -> (A, Status))

  /** `mean_field or factor_approx.model_dist`: a missing or empty mean field is falsy. */
  function ChooseMeanField(factorApprox: FactorApprox, meanField: Option<MeanField>): (r: MeanField)
    ensures meanField.Some? && |meanField.value.mean| > 0 ==> r == meanField.value
    ensures !(meanField.Some? && |meanField.value.mean| > 0) ==> r == factorApprox.modelDist
  {
    if meanField.Some? && |meanField.value.mean| > 0 then meanField.value else factorApprox.modelDist
  }

  /** `VariableData.subset(variables)`. */
  function Subset(values: Values, variables: seq<Variable>): (r: Values)
    ensures forall v :: v in r <==> v in values && v in variables
    ensures forall v :: v in r ==> r[v] == values[v]
  {
    map v | v in values && v in variables :: values[v]
  }

  /** `prepare_state`. The starting parameters are the given ones, or the
      mean field's mean when none (or none non-empty) are given, restricted
      to the free variables. The Hessian over the free variables uses
      `hessian_kws`; a Hessian over the deterministic variables is made
      exactly when there are some, with `make_hessian` and no keywords. */
  function PrepareState(self: LaplaceOptimiser, factorApprox: FactorApprox, meanField: Option<MeanField>,
                        params: Option<Values>): (s: OptState)
    ensures var mf := ChooseMeanField(factorApprox, meanField);
      && s.factorApprox == factorApprox
      && s.parameters == Subset(if params.Some? && |params.value| > 0 then params.value else mf.mean,
                                factorApprox.freeVariables)
      && s.hessian == Hessian(self.makeHessian, mf, factorApprox.freeVariables, self.hessianKws)
      && (s.detHessian.None? <==> |factorApprox.deterministicVariables| == 0)
      && (s.detHessian.Some? ==>
            s.detHessian.value == Hessian(self.makeHessian, mf, factorApprox.deterministicVariables, map[]))
  {
    var mf := ChooseMeanField(factorApprox, meanField);
    var start := if params.Some? && |params.value| > 0 then params.value else mf.mean;
    var hessian := Hessian(self.makeHessian, mf, factorApprox.freeVariables, self.hessianKws);
    var detHessian :=
      if |factorApprox.deterministicVariables| > 0
      then Some(Hessian(self.makeHessian, mf, factorApprox.deterministicVariables, map[]))
      else None;
    OptState(factorApprox, Subset(start, factorApprox.freeVariables), hessian, detHessian)
  }

  /** `optimise_state(state, old_state, **kwargs)`. */
  function OptimiseState<A>(self: LaplaceOptimiser, env: Env<A>, state: OptState, oldState: Option<OptState>,
                            kwargs: Kws): (OptState, Status)
  {
    env.quasiNewton(state, oldState, MergedKws(self, kwargs))
  }

  /** The number of quasi-Newton updates `refine` performs:
      `range(n_refine or self.n_refine)`, so None and 0 fall back to the
      configured count and a negative count means none. */
  function RefineCount(self: LaplaceOptimiser, nRefine: Option<int>): (n: nat)
    ensures (nRefine.None? || nRefine.value == 0) ==> n == (if self.nRefine > 0 then self.nRefine else 0)
    ensures nRefine.Some? && nRefine.value > 0 ==> n == nRefine.value
    ensures nRefine.Some? && nRefine.value < 0 ==> n == 0
  {
    var k := if nRefine.None? || nRefine.value == 0 then self.nRefine else nRefine.value;
    if k > 0 then k else 0
  }

  /** The state after `n` refinements: each one updates the running state
      with the starting state moved to the next draw. */
  function RefineSpec<A>(self: LaplaceOptimiser, env: Env<A>, state: OptState, sample: nat -> Values, n: nat): OptState
  {
    if n == 0 then state
    else env.qnUpdate(self.quasiNewtonUpdate, RefineSpec(self, env, state, sample, n - 1),
                      state.(parameters := sample(n - 1)), self.quasiNewtonKws)
  }

  /** `refine(state, new_param, n_refine)`, with the successive draws of
      `new_param()` given as `sample`. */
  method Refine<A>(self: LaplaceOptimiser, env: Env<A>, state: OptState, sample: nat -> Values, nRefine: Option<int>)
    returns (next: OptState)
    ensures next == RefineSpec(self, env, state, sample, RefineCount(self, nRefine))
  {
    next := state;
    var n := RefineCount(self, nRefine);
    for i := 0 to n
      invariant next == RefineSpec(self, env, state, sample, i)
    {
      var newState := state.(parameters := sample(i));
      next := env.qnUpdate(self.quasiNewtonUpdate, next, newState, self.quasiNewtonKws);
    }
  }

  /** Every refinement starts again from the prepared state: the draws only
      replace its parameters, and the running state is what is updated. */
  lemma RefineUnfolds<A>(self: LaplaceOptimiser, env: Env<A>, state: OptState, sample: nat -> Values, n: nat)
    ensures RefineSpec(self, env, state, sample, n + 1)
      == env.qnUpdate(self.quasiNewtonUpdate, RefineSpec(self, env, state, sample, n),
                      OptState(state.factorApprox, sample(n), state.hessian, state.detHessian), self.quasiNewtonKws)
  {
  }

  /** The `n_refine` keyword of the caller, if any; the source requires it
      to be an integer when present. */
  function NRefineArg(kwargs: Kws): Option<int>
    requires "n_refine" in kwargs ==> kwargs["n_refine"].IntValue?
  {
    if "n_refine" in kwargs then Some(kwargs["n_refine"].i) else None
  }

  /** `optimise_approx`: the projection of the optimised state, or of the
      refined prepared state when the optimisation did not succeed, with the
      status of the optimisation in either case. */
  function OptimiseApproxSpec<A>(self: LaplaceOptimiser, env: Env<A>, factorApprox: FactorApprox,
                                 meanField: Option<MeanField>, params: Option<Values>, kwargs: Kws,
                                 sample: nat -> Values): (r: (MeanField, Status))
    requires "n_refine" in kwargs ==> kwargs["n_refine"].IntValue?
    ensures var mf := ChooseMeanField(factorApprox, meanField);
            var state := PrepareState(self, factorApprox, meanField, params);
            var (optimised, status) := OptimiseState(self, env, state, None, kwargs);
      && r.1 == status
      && (status.flag == Success ==> r.0 == env.fromOptState(mf, optimised))
      && (status.flag != Success ==>
            r.0 == env.fromOptState(mf, RefineSpec(self, env, state, sample, RefineCount(self, NRefineArg(kwargs)))))
  {
    var mf := ChooseMeanField(factorApprox, meanField);
    var state := PrepareState(self, factorApprox, Some(mf), params);
    assert state == PrepareState(self, factorApprox, meanField, params);
    var (optimised, status) := OptimiseState(self, env, state, None, kwargs);
    var next :=
      if status.flag != Success then RefineSpec(self, env, state, sample, RefineCount(self, NRefineArg(kwargs)))
      else optimised;
    (env.fromOptState(mf, next), status)
  }

  /** `optimise_approx`, running the refine loop. */
  method OptimiseApprox<A>(self: LaplaceOptimiser, env: Env<A>, factorApprox: FactorApprox,
                           meanField: Option<MeanField>, params: Option<Values>, kwargs: Kws,
                           sample: nat -> Values) returns (projection: MeanField, status: Status)
    requires "n_refine" in kwargs ==> kwargs["n_refine"].IntValue?
    ensures (projection, status) == OptimiseApproxSpec(self, env, factorApprox, meanField, params, kwargs, sample)
  {
    var mf := ChooseMeanField(factorApprox, meanField);
    var state := PrepareState(self, factorApprox, Some(mf), params);
    assert state == PrepareState(self, factorApprox, meanField, params);
    var next;
    next, status := OptimiseState(self, env, state, None, kwargs).0, OptimiseState(self, env, state, None, kwargs).1;
    if status.flag != Success {
      next := Refine(self, env, state, sample, NRefineArg(kwargs));
    }
    projection := env.fromOptState(mf, next);
  }

  /** `optimise(factor, model_approx, status, **kwargs)`: the incoming status
      plays no part; the status passed on is the optimisation's. */
  method Optimise<A>(self: LaplaceOptimiser, env: Env<A>, factor: string, modelApprox: A, status: Status,
                     kwargs: Kws, sample: nat -> Values) returns (r: (A, Status))
    requires "n_refine" in kwargs ==> kwargs["n_refine"].IntValue?
    ensures var factorApprox := env.factorApproximation(modelApprox, factor);
            var (dist, st) := OptimiseApproxSpec(self, env, factorApprox, None, None, kwargs, sample);
      r == env.updateModelApprox(dist, factorApprox, modelApprox, st)
  {
    var factorApprox := env.factorApproximation(modelApprox, factor);
    var dist, st := OptimiseApprox(self, env, factorApprox, None, None, kwargs, sample);
    r := env.updateModelApprox(dist, factorApprox, modelApprox, st);
  }
}
