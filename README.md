# PyAutoFit core, modelled in Dafny

This project models eleven pieces of PyAutoFit, a Python library for
Bayesian model fitting, and proves properties of each. Every piece is one
module:

- `Messages` (messages.dfy): the algebra of exponential-family messages.
  It covers products, quotients and powers through natural parameters, the
  shift of `log_norm` by scalars, and the guard against combining messages
  about different variables. It also covers validity checks, repairing
  invalid elements, mean/variance shape dispatch and factor naming. IEEE
  doubles are reduced to finite reals, +inf, -inf and NaN.
- `FactorOptimiser` (factor_optimiser.dfy) and `EPStatus` (status.dfy): the
  damping chosen for a factor update during expectation propagation (EP),
  the exact fit of a factor, and how status messages accumulate.
- `EPOptimiser` (ep_optimiser.dfy): the EP optimiser. Its constructor gives
  every factor an optimiser. Its `run` method sweeps the factors at most
  `max_steps` times; it catches optimiser errors, polls interval counters
  and stops early when the history callback says so. The method is proved
  against a recursive specification of the loop.
- `Laplace` (laplace.dfy): the Laplace factor optimiser. It merges keyword
  arguments, prepares the quasi-Newton state, and falls back to a bounded
  refine loop when the optimisation does not succeed.
- `GridResult` (grid_result.dfy): the geometry of a grid search result. It
  covers the side length as an exact integer root, the upper limits,
  centres and physical values, the shape, the best sample, the relative
  figures of merit and the physical step sizes.
- `Migration` (migration.dfy): schema migration. Revisions are prefixes of
  the step list, subtraction works by id, and `get_steps` chooses what to
  run. `migrate` executes statements on a session whose revision table is
  created on demand.
- `Condition` (condition.dfy): query conditions of the results database.
  They render to SQL fragments and compare by rendering. An `And` flattens
  and de-duplicates its conditions and renders them in sorted order.
- `MultiNest` (multinest.dfy): the MultiNest search's settings, its output
  tag, its copy for a phase extension, and the readers of its fixed-width
  output files. The readers are cursor loops over the file text. Lemmas
  show they slice fixed columns out of well-formed lines.
- `PriorArray` (prior_array.dfy): an array of priors. One attribute is
  stored per index under a key encoding the index, and the instance is the
  value array built from prior values.
- `Analyses` (analysis.dfy) and `ModelAnalyses` (model_analysis.dfy): when
  an analysis visualises, and how analyses are added and summed. They also
  cover the result an analysis makes, its latent variables, and the model
  given to each analysis of a combined fit.

`Wrappers` (wrappers.dfy) holds Option and Result. `Text` (text.dfy) holds
Python's `join`, `str` of integers, string ordering and `sorted`.

Several collaborators are not part of this model and are parameters of the
functions that use them:

- the MD5 digest;
- the natural-parameter maps of a message family;
- `np.log`;
- float parsing;
- a prior's `value_for`;
- the `newton` module;
- the EP history callback and interval counters;
- a combined analysis's `+`, `make_result` and likelihood.

A failing call in the source (an exception) is an `Err` or `None` in the
model.

Where the code of `compute_all_latent_variables` meets the base class's
`compute_latent_variable`, which always raises NotImplementedError, the
result is None for any non-empty list of samples. For no samples it is an
empty collection. `Analyses.ComputeAllLatentVariables` states this through
its `compute` parameter.

## Model

| member | source | states |
|---|---|---|
| Messages.Log | autofit/messages/abstract.py:192 | `np.log(c)` is finite exactly when `c > 0`, and then it is the logarithm; it is -inf at 0 and NaN below |
| Messages.FromNaturalParameters | autofit/messages/abstract.py:127-134 | the message is built by the projection class (or the class itself), keeps the given id and `log_norm`, and reads back the natural parameters it was built from |
| Messages.CheckIds | autofit/messages/abstract.py:21-36 | with `enforce_id_match` on, an AssertionError exactly when the operand is a message with a different id; scalars are never checked |
| Messages.SumNaturals | autofit/messages/abstract.py:160-163 | summing natural parameters succeeds exactly when every message's natural parameters have the start's shape, and keeps that shape |
| Messages.SumNaturalParameters | autofit/messages/abstract.py:151-167 | the unnormalised product keeps `self`'s id and has `log_norm` 0; it fails exactly when some message argument's natural parameters differ in shape from `self`'s |
| Messages.IterDistsConcat | autofit/messages/abstract.py:424-433 | `_iter_dists` yields the items of each argument in argument order, a collection flattened one level |
| Messages.MessagesOfConcat | autofit/messages/abstract.py:158-161 | the messages summed from a concatenation are those of each part, in order |
| Messages.MessagesOfMembers | autofit/messages/abstract.py:158-161 | a message is summed exactly when it is one of the items `_iter_dists` yields |
| Messages.FoldAddFirst | autofit/messages/abstract.py:158-161 | Python's `sum` adds left to right: the first term is added to the start first |
| Messages.SumNaturalsElementwise | autofit/messages/abstract.py:158-161 | when every message has the start's shape, the sum succeeds and each entry is the start's entry plus that entry of every message, left to right |
| Messages.SumNaturalParametersElementwise | autofit/messages/abstract.py:151-167 | the product's natural parameters are, entry by entry, `self`'s plus those of every message argument in argument order, scalars skipped |
| Messages.ScalarsSkipped | autofit/messages/abstract.py:424-433 | scalars yielded by `_iter_dists` contribute no natural parameters |
| Messages.SubNaturalParameters | autofit/messages/abstract.py:169-183 | the quotient fails exactly on an id mismatch (when enforced) or a shape mismatch; otherwise it keeps `self`'s id, its `log_norm` is the difference, and (when the family reads back its natural parameters) its natural parameters are `self`'s minus `other`'s, entry by entry |
| Messages.Mul | autofit/messages/abstract.py:187-197 | the product keeps `self`'s id |
| Messages.RMul | autofit/messages/abstract.py:199-201 | `other * self` keeps `self`'s id |
| Messages.Div | autofit/messages/abstract.py:203-213 | the quotient keeps `self`'s id |
| Messages.Pow | autofit/messages/abstract.py:215-224 | `self ** k` keeps the id and scales `log_norm` by `k` |
| Messages.IdGuard | autofit/messages/abstract.py:21-36 | with ids enforced, `*`, reflected `*`, `/` and `sub_natural_parameters` all reject a message with another id |
| Messages.MulAddsNaturalParameters | autofit/messages/abstract.py:187-190 | two messages about one variable multiply, and the product's natural parameters are the elementwise sums |
| Messages.DivSubtractsNaturalParameters | autofit/messages/abstract.py:169-183 | two messages about one variable divide, and the quotient's natural parameters are the elementwise differences, its `log_norm` the difference of theirs |
| Messages.MulThenDivRestores | autofit/messages/abstract.py:151-213 | `(a * b) / b` has the natural parameters of `a` wherever those of `a` and `b` are finite |
| Messages.DivSelfIsIdentity | autofit/messages/abstract.py:169-183 | `m / m` has all-zero natural parameters exactly when `m`'s are finite, and zero `log_norm` exactly when `m`'s is finite |
| Messages.ScalarMulThenDiv | autofit/messages/abstract.py:187-213 | multiplying by a positive real adds its logarithm to `log_norm` and keeps the parameters; dividing by it restores `log_norm` |
| Messages.PowScalesNaturalParameters | autofit/messages/abstract.py:215-224 | `m ** k` has natural parameters `k` times those of `m` |
| Messages.PowPow | autofit/messages/abstract.py:215-224 | `(m ** j) ** k` has the natural parameters and `log_norm` of `m ** (j * k)` |
| Messages.CheckFinite | autofit/messages/abstract.py:460-461 | one entry per element, true exactly when every natural parameter at that element is finite |
| Messages.CheckValid | autofit/messages/abstract.py:463-464 | one entry per element: finite and inside the support |
| Messages.IsValidIffEveryElementValid | autofit/messages/abstract.py:466-468 | `is_valid` holds exactly when `check_valid` holds at every element; then every natural parameter is finite and every parameter lies in its support |
| Messages.UpdateInvalid | autofit/messages/abstract.py:435-447 | each element is kept where `check_valid` holds and taken from `other` where not; class, `log_norm` and id stay `self`'s |
| Messages.UpdateInvalidOfValid | autofit/messages/abstract.py:435-447 | a valid message is left unchanged |
| Messages.GetMeanVariance | autofit/messages/abstract.py:470-490 | succeeds exactly for a covariance of shape `()`, `mean.shape` or `mean.shape * 2`, returning the mean and a variance of the mean's shape |
| Messages.MeanVarianceScalar | autofit/messages/abstract.py:475-479 | a scalar covariance is broadcast to every element |
| Messages.MeanVarianceSameShape | autofit/messages/abstract.py:480-481 | a covariance of the mean's shape is the variance itself |
| Messages.MeanVarianceDiagonal | autofit/messages/abstract.py:482-485 | a covariance of shape `mean.shape * 2` gives its diagonal |
| Messages.FactorNameDefault | autofit/messages/abstract.py:507-516 | the default factor name is the class name without "Message", then "Likelihood" and the shape when it is not `()`; a given name wins |
| Messages.FactorNameExample | autofit/messages/abstract.py:510-514 | a `NormalMessage` of shape `(3,)` is named "NormalLikelihood(3,)" |
| EPStatus.WithMessages | autofit/graphical/expectation_propagation/factor_optimiser.py:84-86 | the new status keeps success and flag and its messages are the old ones followed by the caught warnings |
| FactorOptimiser.NewFactorOptimiser | autofit/graphical/expectation_propagation/factor_optimiser.py:19-24 | missing `initial_values` and `deltas` become empty maps; the other settings are stored as given |
| FactorOptimiser.MinCount | autofit/graphical/expectation_propagation/factor_optimiser.py:36 | the minimum is one of the counts and no count is smaller |
| FactorOptimiser.DampingBounded | autofit/graphical/expectation_propagation/factor_optimiser.py:43-46 | a variable in the fewest messages is damped by exactly `delta`, any other by at most `delta` (for a non-negative `delta`) |
| FactorOptimiser.DynamicDeltas | autofit/graphical/expectation_propagation/factor_optimiser.py:43-46 | one damping per variable, in order, each `delta * min_count / count` |
| FactorOptimiser.DynamicDeltasBounded | autofit/graphical/expectation_propagation/factor_optimiser.py:36-46 | under dynamic damping the least-counted variables get exactly `delta` and no variable gets more |
| FactorOptimiser.SelectDelta | autofit/graphical/expectation_propagation/factor_optimiser.py:35-46 | no message counts is the ValueError of `min`; a factor's own entry in `deltas` wins; otherwise dynamic damping per variable (ZeroDivisionError on a zero count); otherwise the argument unless it is falsy, then `self.delta` |
| FactorOptimiser.DynamicIgnoresDeltaArgument | autofit/graphical/expectation_propagation/factor_optimiser.py:38-46 | on the dynamic path the `delta` argument makes no difference |
| FactorOptimiser.UpdateModelApprox | autofit/graphical/expectation_propagation/factor_optimiser.py:26-53 | `project_mean_field` gets the new distribution, the selected damping and the incoming status unchanged; a damping error is passed on |
| FactorOptimiser.EPMeanField.Copy | autofit/graphical/expectation_propagation/factor_optimiser.py:68 | a fresh approximation with the same mean fields and message counts |
| FactorOptimiser.EPMeanField.UpdateFactorMeanField | autofit/graphical/expectation_propagation/factor_optimiser.py:69-71 | only that factor's mean field is replaced |
| FactorOptimiser.ExactFit | autofit/graphical/expectation_propagation/factor_optimiser.py:61-88 | with an exact update: that factor's mean field becomes the update of its cavity, in place or on a fresh copy as `inplace` says; with an exact projection: the result of `update_model_approx`, the approximation untouched; with neither: NotImplementedError; the caught warnings are appended to the status |
| EPStatus.Failed | autofit/graphical/expectation_propagation/__init__.py:141-144 | the status recorded for a caught error is falsy and holds just that message |
| EPOptimiser.Factors | autofit/graphical/expectation_propagation/__init__.py:51 | a non-empty `factor_order` is used, an empty or missing one falls back to the graph's factors |
| EPOptimiser.Get | autofit/graphical/expectation_propagation/__init__.py:70-73 | `dict.get` gives the entry for the factor, or the default when there is none |
| EPOptimiser.Dedup | autofit/graphical/expectation_propagation/__init__.py:69-75 | the keys of the comprehension: each factor once, nothing else |
| EPOptimiser.AssignWithoutDefault | autofit/graphical/expectation_propagation/__init__.py:60-67 | without a default optimiser, the ValueError is raised exactly when some factor has no optimiser and names exactly those factors; otherwise the given map is kept |
| EPOptimiser.AssignWithDefault | autofit/graphical/expectation_propagation/__init__.py:68-75 | with a default, every factor appears once, with its given optimiser or else the default |
| EPOptimiser.SweepExtends | autofit/graphical/expectation_propagation/__init__.py:128-157 | one sweep leaves the interval counters alone and only appends to the history and the effects |
| EPOptimiser.CompletedSweepVisitsInOrder | autofit/graphical/expectation_propagation/__init__.py:128-157 | a sweep without a break records one history entry per factor optimiser, in map order |
| EPOptimiser.SweepEffectsGated | autofit/graphical/expectation_propagation/__init__.py:152-156 | a factor is logged only when the log counter fired and visualised only when the visualise counter fired, and only after a truthy status |
| EPOptimiser.CaughtErrorKeepsApprox | autofit/graphical/expectation_propagation/__init__.py:133-148 | a ValueError, ArithmeticError or RuntimeError keeps the approximation and records a falsy status naming the factor; the callback still decides whether to stop |
| EPOptimiser.RunPollsOncePerSweep | autofit/graphical/expectation_propagation/__init__.py:124-126 | both interval counters are called once per sweep started, at most `max_steps` times |
| EPOptimiser.UninterruptedRun | autofit/graphical/expectation_propagation/__init__.py:124-166 | when the callback never stops the run and no other error escapes, `run` makes `max_steps` sweeps over every factor and returns the last approximation |
| EPOptimiser.SweepNeverStops | autofit/graphical/expectation_propagation/__init__.py:128-163 | under the same conditions every sweep reaches its `else` branch |
| EPOptimiser.StopAtOnce | autofit/graphical/expectation_propagation/__init__.py:148-150 | a callback that always stops ends `run` after the first factor, with the approximation that factor produced |
| EPOptimiser.EPOptimiser.Create | autofit/graphical/expectation_propagation/__init__.py:38-78 | construction succeeds exactly when the optimiser assignment does, storing the factors, the map and the intervals, with an empty history |
| EPOptimiser.EPOptimiser.SweepFactors | autofit/graphical/expectation_propagation/__init__.py:128-156 | the inner loop ends in the stop reason and state the per-factor specification gives: crashed on an uncaught error, terminated when the callback returns True, completed otherwise |
| EPOptimiser.EPOptimiser.Run | autofit/graphical/expectation_propagation/__init__.py:119-166 | the loop returns what the sweep-by-sweep specification returns and leaves the object in the state it ends in |
| Laplace.OrEmpty | autofit/graphical/laplace/optimiser.py:49 | `x or {}`: the given dictionary, or an empty one when none is given |
| Laplace.NewLaplaceOptimiser | autofit/graphical/laplace/optimiser.py:19-54 | `make_det_hessian` falls back to `make_hessian`; `det_hessian_kws` falls back to `hessian_kws` when missing or empty; the five callables and the counts are stored as given; the search-direction, line-search, quasi-Newton and stop keyword maps are `x or {}`; missing `deltas` become empty |
| Laplace.DefaultKws | autofit/graphical/laplace/optimiser.py:56-69 | exactly the ten default keywords, each carrying the optimiser's own count, callable or keyword map of that name |
| Laplace.CallerOverridesDefaults | autofit/graphical/laplace/optimiser.py:105 | in `{**self.default_kws, **kwargs}` the caller's keywords win, every other default is kept and nothing else is added |
| Laplace.ChooseMeanField | autofit/graphical/laplace/optimiser.py:77 | a missing or empty mean field falls back to the factor approximation's model distribution |
| Laplace.Subset | autofit/graphical/laplace/optimiser.py:82 | the values of exactly the listed variables, unchanged |
| Laplace.PrepareState | autofit/graphical/laplace/optimiser.py:71-97 | the start parameters are the given ones, or else the mean field's mean, restricted to the free variables; the Hessian over the free variables uses `hessian_kws`; a Hessian over the deterministic variables exists exactly when there are some |
| Laplace.RefineCount | autofit/graphical/laplace/optimiser.py:129 | `range(n_refine or self.n_refine)`: a missing or zero count falls back to the configured one, a negative count runs no refinement |
| Laplace.Refine | autofit/graphical/laplace/optimiser.py:127-135 | the loop's state is the specification's after the number of refinements `RefineCount` gives |
| Laplace.RefineUnfolds | autofit/graphical/laplace/optimiser.py:130-133 | each refinement updates the running state towards the prepared state with only its parameters replaced by the next draw |
| Laplace.OptimiseApproxSpec | autofit/graphical/laplace/optimiser.py:108-125 | the status is the optimisation's; the projection is of the optimised state on success, otherwise of the refined prepared state |
| Laplace.OptimiseApprox | autofit/graphical/laplace/optimiser.py:108-125 | the method computes exactly what `OptimiseApproxSpec` states |
| Laplace.Optimise | autofit/graphical/laplace/optimiser.py:137-149 | the incoming status is ignored; `update_model_approx` receives the projection and the optimisation's status |
| GridResult.IntRoot | autofit/non_linear/grid/grid_search/result.py:114 | the side length `int(no_steps ** (1 / no_dimensions))` is the integer `r` with `r ** d <= n < (r + 1) ** d` |
| GridResult.RootIsGreatest | autofit/non_linear/grid/grid_search/result.py:114 | no larger number has its `d`-th power within the number of steps |
| GridResult.IntRootOfPower | autofit/non_linear/grid/grid_search/result.py:114 | a grid of `side ** d` cells has side length exactly `side` |
| GridResult.NewGridSearchResult | autofit/non_linear/grid/grid_search/result.py:92-118 | no lower-limit lists is an IndexError, an empty first list a ZeroDivisionError, and every other input succeeds; the samples, lists and grid priors are stored as given, the dimensions are the first list's length, the steps the number of lists, and the side length is at least 1 |
| GridResult.Shape | autofit/non_linear/grid/grid_search/result.py:200-202 | one entry per dimension, each the side length |
| GridResult.UpperLimitsLists | autofit/non_linear/grid/grid_search/result.py:141-152 | same layout as the lower limits, each upper limit exactly one step size above its lower limit |
| GridResult.CentresLists | autofit/non_linear/grid/grid_search/result.py:154-167 | same layout as the lower limits, carrying the grid's shape |
| GridResult.CentresHalfwayInCell | autofit/non_linear/grid/grid_search/result.py:141-167 | every centre is half a step above its lower limit and half a step below its upper limit |
| GridResult.PhysicalValuesFor | autofit/non_linear/grid/grid_search/result.py:169-186 | one list per cell, truncated to the shorter of priors and values as `zip` does, each value mapped by the prior of its dimension |
| GridResult.PhysicalLowerLimitsLists | autofit/non_linear/grid/grid_search/result.py:120-125 | the lower limits mapped through the grid priors, with the grid's shape |
| GridResult.PhysicalCentresLists | autofit/non_linear/grid/grid_search/result.py:127-132 | the centres mapped through the grid priors, with the grid's shape |
| GridResult.PhysicalUpperLimitsLists | autofit/non_linear/grid/grid_search/result.py:134-139 | the upper limits mapped through the grid priors, with the grid's shape |
| GridResult.TwoCellGrid | autofit/non_linear/grid/grid_search/result.py:120-167 | a two-cell grid with lower limits 0 and 0.5 has shape [2], upper limits 0.5 and 1, physical centres 0.25 and 0.75 under a uniform prior on [0, 1], and physical lower limits 0 and u/2 under a uniform prior on [0, u] |
| GridResult.BestIndex | autofit/non_linear/grid/grid_search/result.py:214-217 | an index whose log likelihood no sample exceeds, and the first such, as `max` picks it |
| GridResult.BestSamples | autofit/non_linear/grid/grid_search/result.py:204-217 | succeeds exactly when there are samples and at least one; no samples is a TypeError; the best is one of the samples and no sample has a higher log likelihood |
| GridResult.LogLikelihoods | autofit/non_linear/grid/grid_search/result.py:286-301 | defined exactly when there are samples; one entry per sample, each its log likelihood less the reference value, with the grid's shape |
| GridResult.LogEvidences | autofit/non_linear/grid/grid_search/result.py:303-318 | defined exactly when there are samples; one entry per sample, each its log evidence less the reference value, with the grid's shape |
| GridResult.FigureOfMerits | autofit/non_linear/grid/grid_search/result.py:320-335 | the log evidences when asked for, the log likelihoods otherwise |
| GridResult.BestHasGreatestLogLikelihood | autofit/non_linear/grid/grid_search/result.py:204-217 | no relative log likelihood exceeds that of the best sample |
| GridResult.Diffs | autofit/non_linear/grid/grid_search/result.py:247 | one fewer entry than values (none for no values), each the absolute difference of neighbours |
| GridResult.Column | autofit/non_linear/grid/grid_search/result.py:246 | one entry per cell, the cell's value in the given dimension |
| GridResult.StepSizesSpec | autofit/non_linear/grid/grid_search/result.py:239-258 | a successful result has one step size per dimension |
| GridResult.PhysicalStepSizes | autofit/non_linear/grid/grid_search/result.py:239-258 | the loop returns the step sizes of every dimension, or the error of the first dimension that fails |
| GridResult.StepSizesErrPersists | autofit/non_linear/grid/grid_search/result.py:253-256 | once a dimension raises, every later prefix of dimensions raises the same error |
| GridResult.StepSizesErrMonotone | autofit/non_linear/grid/grid_search/result.py:245-258 | a failure among the first dimensions fails every longer run of dimensions |
| GridResult.FirstDimensionStepSize | autofit/non_linear/grid/grid_search/result.py:249-250 | with two or more cells, the first dimension's step size is one of its gaps and no gap is larger |
| GridResult.SecondDimensionStepSize | autofit/non_linear/grid/grid_search/result.py:251-252 | with two or more cells, the second dimension's step size is one of its gaps and no gap is smaller |
| GridResult.OneDimensionalStepSizes | autofit/non_linear/grid/grid_search/result.py:245-258 | a one-dimensional grid of two or more cells has one step size, its largest gap |
| GridResult.TwoDimensionalStepSizes | autofit/non_linear/grid/grid_search/result.py:245-258 | a two-dimensional grid has the largest gap of the first dimension and the smallest of the second as step sizes |
| GridResult.NoStepSizesBeyondTwoDimensions | autofit/non_linear/grid/grid_search/result.py:253-256 | three or more dimensions always end in an error |
| Migration.IdentifiableEqualsLaws | autofit/database/migration/migration.py:15-26 | equality of identifiables is reflexive, symmetric and transitive; an identifiable equals exactly the string that is its id and nothing of any other type |
| Migration.SameStepIdsSameRevisionId | autofit/database/migration/migration.py:122-129 | a revision's id depends only on the ids of its steps, in order |
| Migration.KeepMembers | autofit/database/migration/migration.py:131-135 | keeps, in order, exactly the steps whose id is not among the given ids |
| Migration.Subtract | autofit/database/migration/migration.py:131-135 | a step survives exactly when it is in the revision and no step of the other revision has its id |
| Migration.SubtractPrefix | autofit/database/migration/migration.py:131-135 | with distinct step ids, the latest revision minus its first `i` steps is the steps from `i` on |
| Migration.Migrator.Revisions | autofit/database/migration/migration.py:33-38 | one revision per step, the i-th holding the first i + 1 steps |
| Migration.Migrator.GetStepsUnmatched | autofit/database/migration/migration.py:40-45 | when no revision's id matches, every step is still to run |
| Migration.Migrator.GetStepsOfNone | autofit/database/migration/migration.py:40-45 | a database with no recorded revision runs every step |
| Migration.Migrator.GetStepsFirstMatch | autofit/database/migration/migration.py:40-45 | with distinct step ids, a database at the first revision with the recorded id runs exactly the steps after that revision |
| Migration.Migrator.GetStepsOfLatest | autofit/database/migration/migration.py:40-51 | with distinct step ids, a database at the latest revision runs no step |
| Migration.Migrator.Migrate | autofit/database/migration/migration.py:53-69 | the revision is read (creating the table when missing), every statement of every step still to run is sent and those the database accepts take effect, and every revision row then holds the latest revision's id |
| Migration.ExecuteSteps | autofit/database/migration/migration.py:60-67 | every statement of the selected steps is sent, step after step, and exactly those that do not fail take effect, in order |
| Migration.ExecuteStep | autofit/database/migration/migration.py:61-67 | every statement of one step is sent in order, and exactly those that do not fail take effect |
| Migration.SucceedingMembers | autofit/database/migration/migration.py:62-67 | the statements that take effect are exactly the sent statements that do not fail |
| Migration.SucceedingConcat | autofit/database/migration/migration.py:60-67 | the statements that take effect from two runs in a row are those of each run, concatenated |
| Migration.Session.Execute | autofit/database/migration/migration.py:62-67 | a statement is always sent and takes effect only when it does not raise OperationalError, which is swallowed |
| Migration.StoredRevisionId | autofit/database/migration/migration.py:100-105 | a stored id is the first row's value; no table or no row gives None |
| Migration.SessionWrapper.constructor | autofit/database/migration/migration.py:87-88 | the wrapper holds the session it is given |
| Migration.SessionWrapper.InitRevisionTable | autofit/database/migration/migration.py:90-96 | the revision table is created with a single null row, by the create and insert statements in that order |
| Migration.SessionWrapper.GetRevisionId | autofit/database/migration/migration.py:72-105 | returns the first row's id, or None; on a missing table the select fails, the table is created with a null row and the select is retried |
| Migration.SessionWrapper.SetRevisionId | autofit/database/migration/migration.py:107-115 | every revision row takes the new id; on a missing table the update fails, the table is created and the update is retried |
| Condition.LeafRenderings | autofit/database/query_model/condition.py:6-95 | the SQL fragments of value, name and type conditions, and the table strings "object AS o" and "value AS v" |
| Condition.TablesKnown | autofit/database/query_model/condition.py:60-125 | every condition, nested or not, reads only the object and value tables |
| Condition.SortedSet | autofit/database/query_model/condition.py:30 | `sorted` of a set of strings: strictly ascending and holding exactly the set's strings |
| Condition.TablesStringOfBoth | autofit/database/query_model/condition.py:28-30 | a condition on both tables lists them as "object AS o, value AS v" |
| Condition.TablesStringOfOne | autofit/database/query_model/condition.py:28-30 | a condition on one table lists only that table's string |
| Condition.Iterate | autofit/database/query_model/condition.py:114-115 | iterating an And yields its conditions, a permutation of them, sorted by rendering |
| Condition.AddEachKeeps | autofit/database/query_model/condition.py:103-112 | adding conditions to a set keeps renderings distinct and adds exactly the new renderings |
| Condition.MakeAnd | autofit/database/query_model/condition.py:98-112 | the loop's collection is that of the flattening, de-duplicating specification |
| Condition.CollectedProperties | autofit/database/query_model/condition.py:98-112 | an And holds each required rendering (of a plain condition, or of a nested And's conditions) exactly once, and from flat inputs holds no And |
| Condition.AndRendering | autofit/database/query_model/condition.py:127-133 | an And renders as its set of renderings in ascending order joined by " AND " |
| Condition.AndDependsOnlyOnRenderings | autofit/database/query_model/condition.py:42-133 | two Ands built from inputs with the same required renderings compare equal, whatever the order of the inputs |
| Condition.Conjoin | autofit/database/query_model/condition.py:36-40 | `a & b` is the And built from `a` and `b` |
| Condition.ConjoinCommutative | autofit/database/query_model/condition.py:36-52 | `a & b` equals `b & a` |
| Condition.ConjoinIdempotent | autofit/database/query_model/condition.py:36-133 | `a & a` holds only `a` and renders as `a` does |
| MultiNest.SettingsFromArgumentsOrConfig | autofit/non_linear/nest/multi_nest.py:121-178 | with no argument given every setting is the configured one, and with every argument given the configuration is ignored |
| MultiNest.MultimodalResolves | autofit/non_linear/nest/multi_nest.py:141-145 | despite its `or`, `multimodal` is the argument when given (even False against a configured True) and the configured value otherwise |
| MultiNest.TagStructure | autofit/non_linear/nest/multi_nest.py:250-271 | the tag is name, live points and sampling efficiency followed by the constant-efficiency, multimodal and importance-nested-sampling suffixes in that order, each `_tag` exactly when its flag is set; with no flag set it is just that prefix |
| MultiNest.ImportanceSamplingTagLast | autofit/non_linear/nest/multi_nest.py:266-271 | switching importance nested sampling on appends its suffix at the very end of the tag |
| MultiNest.CopyKeepsSettings | autofit/non_linear/nest/multi_nest.py:273-302 | the copy writes where the base copy writes and keeps every search setting, so its tag is the original's |
| MultiNest.CountLines | autofit/non_linear/nest/multi_nest.py:365-367 | the loop counts the lines of the file, the last one counted even without a newline |
| MultiNest.Records | autofit/non_linear/nest/multi_nest.py:373-379 | every record read has exactly the requested number of fields |
| MultiNest.ReadRecords | autofit/non_linear/nest/multi_nest.py:365-383 | the cursor loops (skip, read fields, move past the newline, once per counted line) yield the records of the reading specification, or None when a field does not parse |
| MultiNest.ParametersFromFile | autofit/non_linear/nest/multi_nest.py:358-383 | per line, `prior_count` fields of 28 characters after the first 56 |
| MultiNest.LogLikelihoodsFromFile | autofit/non_linear/nest/multi_nest.py:386-405 | per line, -0.5 times the field of 28 characters after the first 28 |
| MultiNest.WeightsFromFile | autofit/non_linear/nest/multi_nest.py:408-427 | per line, the field of 24 characters after the first 4 |
| MultiNest.TotalSamplesFromResume | autofit/non_linear/nest/multi_nest.py:430-439 | the total is the integer in columns [20, 28) of the resume file |
| MultiNest.LogEvidenceFromSummary | autofit/non_linear/nest/multi_nest.py:442-456 | a missing summary gives -1.0e99; otherwise the log evidence is the float in columns [2 + 112 k, 30 + 112 k) for `prior_count` k |
| MultiNest.RecordsOfWellFormedFile | autofit/non_linear/nest/multi_nest.py:365-383 | on a file of newline-terminated lines long enough for their fields, the records are one per line, field `j` being the parse of the `width` characters from `skip + width * j` |
| MultiNest.ParametersOfWellFormedFile | autofit/non_linear/nest/multi_nest.py:358-383 | on a well-formed file, entry `j` of line `i`'s parameters is the float in columns [56 + 28 j, 84 + 28 j) |
| MultiNest.LogLikelihoodsOfWellFormedFile | autofit/non_linear/nest/multi_nest.py:386-405 | on a well-formed file, line `i`'s log likelihood is -0.5 times the float in columns [28, 56) |
| MultiNest.WeightsOfWellFormedFile | autofit/non_linear/nest/multi_nest.py:408-427 | on a well-formed file, line `i`'s weight is the float in columns [4, 28) |
| PriorArray.Indices | autofit/mapper/prior_model/array.py:22 | every index `np.ndindex` yields lies inside the shape |
| PriorArray.IndicesCount | autofit/mapper/prior_model/array.py:22 | there are as many indices as the product of the shape's dimensions |
| PriorArray.IndicesComplete | autofit/mapper/prior_model/array.py:22 | every index inside the shape is yielded |
| PriorArray.IndicesAscending | autofit/mapper/prior_model/array.py:22 | the indices come in strictly ascending row-major order, hence without repeats |
| PriorArray.Parts | autofit/mapper/prior_model/array.py:29 | one decimal string per component, in order |
| PriorArray.MakeKeyExample | autofit/mapper/prior_model/array.py:27-30 | the index (1, 2) has the key "prior_1_2" |
| PriorArray.MakeKeyInjective | autofit/mapper/prior_model/array.py:27-30 | distinct indices have distinct keys, so no two cells share an attribute |
| PriorArray.AttributesKeys | autofit/mapper/prior_model/array.py:24-25 | the constructor's loop sets an attribute exactly for the keys of the indices yielded |
| PriorArray.AttributesValues | autofit/mapper/prior_model/array.py:24-25 | for indices without repeats, the `k`-th index's attribute is a new prior of the same distribution with id `firstId + k` |
| PriorArray.ZerosCells | autofit/mapper/prior_model/array.py:37 | `np.zeros(shape)` has one cell per index inside the shape, each 0.0 |
| PriorArray.FillValues | autofit/mapper/prior_model/array.py:37-42 | when every visited index has a prior with a value, the filled array covers the old cells and the visited indices, each visited cell holds its prior's value, and the others are unchanged |
| PriorArray.Array.SetItem | autofit/mapper/prior_model/array.py:44-45 | the attribute named after the index is set to the value and nothing else changes |
| PriorArray.GetAfterSet | autofit/mapper/prior_model/array.py:44-48 | reading a written index gives the value written, and every other index reads as before |
| PriorArray.Array.constructor | autofit/mapper/prior_model/array.py:9-25 | the attributes are those the loop over every index sets, and the iterator stored in `self.indices` is used up |
| PriorArray.ConstructedAttributes | autofit/mapper/prior_model/array.py:9-30 | after construction every index inside the shape has its own prior of the given distribution, the `k`-th in row-major order with id `firstId + k`, and no other attribute is set |
| PriorArray.Array.InstanceForArguments | autofit/mapper/prior_model/array.py:32-42 | as written: only the indices the stored iterator still yields are filled, so after construction the instance is all zeros |
| PriorArray.Array.InstanceForArgumentsFixed | autofit/mapper/prior_model/array.py:32-42 | with a fresh iterator over the shape, the loop fills every index of the shape |
| PriorArray.FixedInstanceValues | autofit/mapper/prior_model/array.py:32-42 | with a fresh iterator, the instance has exactly the shape's cells and each holds the value of the prior stored for its index |
| PriorArray.InstanceDiscrepancy | autofit/mapper/prior_model/array.py:22-42 | on a one-cell array whose prior is given 1.0 the instance as written is [0.0], while the intended one is [1.0] |
| Analyses.ShouldVisualize | autofit/non_linear/analysis/analysis.py:92-136 | test mode and database or null output always switch visualisation off; otherwise it runs exactly when forced, at the final call, or while the fit is not complete |
| Analyses.VisualisationPriorities | autofit/non_linear/analysis/analysis.py:92-136 | forcing does not override test mode or database output, and a complete fit is visualised during the analysis only when forced |
| Analyses.WithModel | autofit/non_linear/analysis/analysis.py:73-90 | the result is a model analysis of this analysis and the given model |
| Analyses.Add | autofit/non_linear/analysis/analysis.py:247-266 | adding a combined analysis is delegated to it with the operands swapped; otherwise the two are combined, in order |
| Analyses.RAdd | autofit/non_linear/analysis/analysis.py:268-274 | `0 + a` is `a` itself; any other left operand is added on the right of `a` |
| Analyses.SumOfOne | autofit/non_linear/analysis/analysis.py:268-274 | `sum` of one analysis is that analysis |
| Analyses.SumOfTwo | autofit/non_linear/analysis/analysis.py:247-274 | `sum` of two analyses, neither combined, combines them in order |
| Analyses.SumFlattens | autofit/non_linear/analysis/analysis.py:247-274 | when a combined analysis appends what is added to it, `sum` of two or more plain analyses is one flat combined analysis of all of them, in order |
| Analyses.Bind | autofit/non_linear/analysis/analysis.py:173-180 | keyword arguments bind exactly when every keyword is a parameter and every required parameter is given; otherwise a TypeError |
| Analyses.MakeResult | autofit/non_linear/analysis/analysis.py:173-228 | succeeds exactly when the keywords are parameters and the summary and paths are given; the result keeps summary, paths, samples and internal state as given and never holds the analysis |
| Analyses.MakeResultIgnoresAnalysis | autofit/non_linear/analysis/analysis.py:222-228 | whatever is passed as `analysis` makes no difference to the result |
| Analyses.ComputeAllLatentVariables | autofit/non_linear/analysis/analysis.py:32-56 | None exactly when computing some sample's latent variables raises NotImplementedError; otherwise one entry per sample, in order, each the latent variables of that sample's instance |
| ModelAnalyses.LogLikelihoodUnwraps | autofit/non_linear/analysis/model_analysis.py:23-24 | however many models an analysis is wrapped with, its log likelihood is that of the analysis it wraps |
| ModelAnalyses.WithModelKeepsLikelihood | autofit/non_linear/analysis/model_analysis.py:7-24 | pairing an analysis with a model keeps the likelihood of every instance and records the model |
| ModelAnalyses.Forwarded | autofit/non_linear/analysis/model_analysis.py:26-33 | exactly the five keywords `samples`, `model`, `sigma`, `use_errors` and `use_widths` are passed on; each bound argument is passed unchanged, and an absent one takes its default 1.0, True or False |
| ModelAnalyses.MakeResultAsWrittenFails | autofit/non_linear/analysis/model_analysis.py:26-33 | as written, a model analysis around a user's analysis always raises TypeError from `make_result` |
| ModelAnalyses.MakeResultFixedForwards | autofit/non_linear/analysis/model_analysis.py:26-33 | forwarding the base signature, a model analysis around a user's analysis makes exactly the result the user's analysis makes, errors included |
| ModelAnalyses.ModifyModel | autofit/non_linear/analysis/model_analysis.py:36-58 | one model per analysis, in order: the analysis's own model when it is a model analysis, the default otherwise |
| ModelAnalyses.ModifyModelWithoutOwnModels | autofit/non_linear/analysis/model_analysis.py:51-58 | with no model analysis, every analysis gets the default model |
| ModelAnalyses.ModifyModelIgnoresDefault | autofit/non_linear/analysis/model_analysis.py:51-58 | when every analysis has its own model, the default is not used |
| ModelAnalyses.ModifyModelConcat | autofit/non_linear/analysis/model_analysis.py:51-58 | the models of two groups of analyses side by side are those of the joined group |

## Left out

- Numerical parts of messages: `logpdf`, `pdf`, sampling, finite-difference gradients and the weighting in `project`. They are floating-point numerics; the family's own maps are parameters.
- Messages: overflow of two finite doubles to infinity is not modelled, and numpy broadcasting of a scalar message parameter is not modelled.
- Messages.WellFormed: requires a non-empty parameter support when one is given. With an empty support `check_support` calls `reduce` on nothing and raises TypeError; that error is not modelled.
- Runtime class synthesis in `transformed` and pickling through `__reduce__`: reflection that leaves nothing to state beyond naming.
- The `Status` record is defined in autofit/graphical/utils.py, which is not part of this model. Only the fields the modelled code reads are kept.
- EPOptimiser.EPOptimiser.SweepFactors: the `name=self.name` keyword passed to each factor optimiser is not modelled. The optimisers are parameters and the name is only used for their output paths.
- `EPMeanField`, `MeanField`, `IntervalCounter`, `EPHistory` and the factor optimisers' `optimise` are not part of this model. They are parameters, and the interval counters are a rule saying on which call a counter fires.
- Logging, plotting, saving figures and the `graph.info` write in the EP code are recorded as effects or left out. The output itself is I/O.
- Laplace.NewLaplaceOptimiser: the record keeps only `deltas` of what the base `FactorOptimiser` constructor sets. The defaults it also sets (`delta` 1, `dynamic_delta` False, `inplace` False, `initial_values` empty) are not modelled, because the modelled Laplace code does not read them.
- The `newton` quasi-Newton functions and the Laplace `MeanField` methods are not part of this model. They are parameters, and a Hessian is the record of the call that made it.
- GridResult.IntRoot: the side length is the exact integer root. `int(n ** (1 / d))` in floating point can round below it (64 cells in 3 dimensions, say); that rounding is not modelled.
- `LimitLists.native` (a numpy reshape), `attribute_grid` (attribute lookup by path on instances), `best_model`, `all_models`, pickling state and `__getattr__` delegation of the grid result are not modelled. They read attributes of objects this model does not hold.
- `Prior.value_for` is given as a function per grid dimension.
- Migration: MD5 (RFC 1321) is a parameter. An OperationalError on the revision table is modelled as the table being missing. Which migration statements fail is the database's affair, given as a predicate.
- Migration.SessionWrapper.InitRevisionTable: requires the revision table to be missing. It is only called after a statement on that table failed; creating an existing table is not modelled.
- Migration.Migrator.GetStepsFirstMatch: takes as a premise that no earlier revision has the matched id. MD5 collisions between prefixes are not excluded.
- Condition: `str(value)` of a ValueCondition and `get_class_path(cls)` of a TypeCondition are the strings they render to. A Table with an empty name, whose abbreviation raises IndexError, is excluded by a precondition, since only the two named tables exist.
- MultiNest: float and int parsing are parameters returning None for a ValueError. The base search's constructor and `copy_with_name_extension` are not part of this model. `_fit` (calls `pymultinest.run`) and `samples_from_model` (builds samples from the model's priors) are left out as foreign calls.
- PriorArray: `prior.new()` is the same prior with the next id, the ids drawn from a given first id. `Prior.instance_for_arguments` is a lookup in the arguments map. The `ignore_assertions` flag is not modelled.
- Analyses: `os.environ` and the `force_visualize_overwrite` setting are parameters of `ShouldVisualize`. `log_likelihood_function`, `compute_latent_variable` and the other overridable hooks are user code, modelled as parameters.
- Analyses: combined.py is not part of this model, so a combined analysis's `+`, `make_result` and likelihood are parameters. `sum` with a start value other than 0 is not modelled.
- Analyses: `make_result` is modelled for keyword calls, the only kind the modelled callers make. A user's `Result` class or a user's override of `make_result` is not modelled.
- `LatentVariables` is modelled as the sequence of per-sample rows it accumulates.
- ModelAnalyses: `ModelAnalysis.__getattr__` delegates any other attribute to the wrapped analysis by reflection, which is not modelled. `CombinedModelAnalysis.analyses` are indexed wrappers; the model takes the analyses they wrap.

## Findings

| source | as written | input that shows it | evidently intended | confidence | as-written member | corrected member |
|---|---|---|---|---|---|---|
| autofit/mapper/prior_model/array.py:32-42 | `_instance_for_arguments` loops over `self.indices`, the `np.ndindex` iterator the constructor already used up (lines 22-25), so no cell is ever filled and the instance is all zeros | `Array((1,), prior)` with the prior given 1.0 yields `[0.0]` | iterate a fresh `np.ndindex(*self.shape)` and yield `[1.0]` | not executed; high | PriorArray.InstanceDiscrepancy | PriorArray.FixedInstanceValues |
| autofit/non_linear/analysis/model_analysis.py:26-33 | `ModelAnalysis.make_result` passes `samples`, `model`, `sigma`, `use_errors` and `use_widths` by keyword, but `Analysis.make_result` (analysis.py:173-180) takes `samples_summary`, `paths`, `samples`, `search_internal` and `analysis`, so the call raises TypeError | `UserAnalysis().with_model(m).make_result(samples=s, model=m)` | forward the arguments of the base signature unchanged | not executed; medium (a user analysis overriding `make_result` with the older signature would accept the call) | ModelAnalyses.MakeResultAsWrittenFails | ModelAnalyses.MakeResultFixedForwards |
