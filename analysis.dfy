/** The base `Analysis` of a model fit: when it visualises, how analyses
    are added and summed, the result it makes and the latent variables it
    computes from a search's samples. */
module Analyses {
  import opened Wrappers

  /** A model the analysis may be given; only its identity matters here. */
  datatype Model = Model(name: string)

  /** An analysis: a user's subclass of `Analysis` (identified by `id`), an
      analysis wrapped with a model of its own (`with_model`), or several
      analyses combined by `+`. */
  datatype Analysis =
    | UserAnalysis(id: nat)
    | ModelAnalysis(analysis: Analysis, model: Model)
    | CombinedAnalysis(analyses: seq<Analysis>)

  // --- Visualisation ---------------------------------------------------------

  /** Where a search writes its output, and whether the fit it belongs to
      has completed. */
  datatype Paths =
    | DirectoryPaths(isComplete: bool)
    | DatabasePaths(isComplete: bool)
    | NullPaths

  /** `should_visualize`: the value of the `PYAUTOFIT_TEST_MODE` environment
      variable comes first, the kind of paths second, the
      `force_visualize_overwrite` setting third, and only then whether the
      fit is still running and complete. */
  function ShouldVisualize(testMode: Option<string>, paths: Paths, forceOverwrite: bool, duringAnalysis: bool): (r: bool)
    ensures testMode == Some("1") ==> !r
    ensures paths.DatabasePaths? || paths.NullPaths? ==> !r
    ensures r <==> testMode != Some("1") && paths.DirectoryPaths?
                   && (forceOverwrite || !duringAnalysis || !paths.isComplete)
  {
    if testMode == Some("1") then false
    else if paths.DatabasePaths? || paths.NullPaths? then false
    else if forceOverwrite then true
    else if !duringAnalysis then true
    else !paths.isComplete
  }

  /** Forcing does not override test mode or database output, and a
      finished fit is visualised again only when forced or at the end. */
  lemma VisualisationPriorities(testMode: Option<string>, paths: Paths, duringAnalysis: bool)
    ensures !ShouldVisualize(Some("1"), paths, true, duringAnalysis)
    ensures !ShouldVisualize(testMode, DatabasePaths(false), true, duringAnalysis)
    ensures testMode != Some("1") ==> ShouldVisualize(testMode, DirectoryPaths(true), true, duringAnalysis)
    ensures testMode != Some("1") ==> !ShouldVisualize(testMode, DirectoryPaths(true), false, true)
    ensures testMode != Some("1") ==> ShouldVisualize(testMode, DirectoryPaths(true), false, false)
  {
  }

  // --- Adding analyses ---------------------------------------------------------

  /** `with_model`: the analysis paired with an explicit model. */
  function WithModel(analysis: Analysis, model: Model): (r: Analysis)
    ensures r.ModelAnalysis? && r.analysis == analysis && r.model == model
  {
    ModelAnalysis(analysis, model)
  }

  /** `left + right`: a combined analysis has its own `__add__`, which is
      not part of this model and is passed in as `combinedAdd`; every other
      analysis uses `Analysis.__add__`. */
  function Plus(left: Analysis, right: Analysis, combinedAdd: (Analysis, Analysis) -> Analysis): Analysis
  {
    if left.CombinedAnalysis? then combinedAdd(left, right) else Add(left, right, combinedAdd)
  }

  /** `Analysis.__add__`: adding a combined analysis is left to it, with
      the operands swapped; otherwise the two analyses are combined, in
      order. */
  function Add(self: Analysis, other: Analysis, combinedAdd: (Analysis, Analysis) -> Analysis): (r: Analysis)
    ensures other.CombinedAnalysis? ==> r == combinedAdd(other, self)
    ensures !other.CombinedAnalysis? ==> r == CombinedAnalysis([self, other])
  {
    if other.CombinedAnalysis? then combinedAdd(other, self) else CombinedAnalysis([self, other])
  }

  /** The left operand of a reflected `+`: the integer 0 (the start value
      of `sum`) or an analysis. */
  datatype Operand = Zero | Operand(analysis: Analysis)

  /** `Analysis.__radd__`: `0 + a` is `a` itself; anything else is
      `a + other`. */
  function RAdd(self: Analysis, other: Operand, combinedAdd: (Analysis, Analysis) -> Analysis): (r: Analysis)
    ensures other == Zero ==> r == self
    ensures other.Operand? ==> r == Add(self, other.analysis, combinedAdd)
  {
    if other == Zero then self else Add(self, other.analysis, combinedAdd)
  }

  /** Python's `sum(analyses)`: start from 0 and add each analysis on the
      right. The first addition, `0 + a`, falls back to `a.__radd__(0)`. */
  function Sum(analyses: seq<Analysis>, combinedAdd: (Analysis, Analysis) -> Analysis): Operand
  {
    if |analyses| == 0 then Zero
    else
      var n := |analyses| - 1;
      var acc := Sum(analyses[..n], combinedAdd);
      if acc == Zero then Operand(RAdd(analyses[n], Zero, combinedAdd))
      else Operand(Plus(acc.analysis, analyses[n], combinedAdd))
  }

  /** `combinedAdd` puts an analysis that is not combined at the end of a
      combined one. */
  ghost predicate AppendsOnRight(combinedAdd: (Analysis, Analysis) -> Analysis)
  {
    forall parts: seq<Analysis>, other: Analysis ::
      !other.CombinedAnalysis? ==> combinedAdd(CombinedAnalysis(parts), other) == CombinedAnalysis(parts + [other])
  }

  /** Summing one analysis gives that analysis itself. */
  lemma SumOfOne(a: Analysis, combinedAdd: (Analysis, Analysis) -> Analysis)
    ensures Sum([a], combinedAdd) == Operand(a)
  {
    assert [a][..0] == [];
  }

  /** Summing two analyses neither of which is combined combines them in
      order. */
  lemma SumOfTwo(a: Analysis, b: Analysis, combinedAdd: (Analysis, Analysis) -> Analysis)
    requires !a.CombinedAnalysis? && !b.CombinedAnalysis?
    ensures Sum([a, b], combinedAdd) == Operand(CombinedAnalysis([a, b]))
  {
    assert [a, b][..1] == [a];
    SumOfOne(a, combinedAdd);
  }

  /** When a combined analysis's `+` appends, the sum of at least two
      analyses none of which is combined is one flat combined analysis of
      all of them, in order. */
  lemma {:induction false} SumFlattens(analyses: seq<Analysis>, combinedAdd: (Analysis, Analysis) -> Analysis)
    requires |analyses| >= 2
    requires forall k :: 0 <= k < |analyses| ==> !analyses[k].CombinedAnalysis?
    requires AppendsOnRight(combinedAdd)
    ensures Sum(analyses, combinedAdd) == Operand(CombinedAnalysis(analyses))
  {
    var n := |analyses| - 1;
    if n == 1 {
      assert analyses == [analyses[0], analyses[1]];
      SumOfTwo(analyses[0], analyses[1], combinedAdd);
    } else {
      var front := analyses[..n];
      SumFlattens(front, combinedAdd);
      assert combinedAdd(CombinedAnalysis(front), analyses[n]) == CombinedAnalysis(front + [analyses[n]]);
      assert front + [analyses[n]] == analyses;
    }
  }

  // --- Making a result -----------------------------------------------------

  /** An argument value passed to `make_result`. */
  datatype Value = Object(id: nat) | Number(x: real) | Flag(b: bool) | NoneValue

  /** The `Result` a fit returns. */
  datatype FitResult = FitResult(samplesSummary: Value, paths: Value, samples: Value, searchInternal: Value, analysis: Value)

  /** The parameters of `Analysis.make_result`, in order. */
  const MakeResultParameters: seq<string> := ["samples_summary", "paths", "samples", "search_internal", "analysis"]

  /** Binding keyword arguments to a Python signature: an unknown keyword
      or a missing required argument is a TypeError. */
  function Bind(parameters: seq<string>, required: set<string>, kwargs: map<string, Value>): (r: Result<map<string, Value>, string>)
    ensures r.Ok? <==> (forall k :: k in kwargs ==> k in parameters) && (forall k :: k in required ==> k in kwargs)
    ensures r.Ok? ==> r.value == kwargs
    ensures r.Err? ==> r.error == "TypeError"
  {
    if exists k :: k in kwargs && k !in parameters then Err("TypeError")
    else if exists k :: k in required && k !in kwargs then Err("TypeError")
    else Ok(kwargs)
  }

  /** The argument bound to `name`, or its default `None`. */
  function Argument(bound: map<string, Value>, name: string): Value
  {
    if name in bound then bound[name] else NoneValue
  }

  /** `Analysis.make_result` called with keyword arguments: the result
      holds the summary, paths, samples and internal state it was given,
      and never the analysis, whatever was passed for it. */
  function MakeResult(kwargs: map<string, Value>): (r: Result<FitResult, string>)
    ensures r.Ok? <==> (forall k :: k in kwargs ==> k in MakeResultParameters) && "samples_summary" in kwargs && "paths" in kwargs
    ensures r.Ok? ==> r.value.analysis == NoneValue
    ensures r.Ok? ==> r.value.samplesSummary == kwargs["samples_summary"] && r.value.paths == kwargs["paths"]
                      && r.value.samples == Argument(kwargs, "samples")
                      && r.value.searchInternal == Argument(kwargs, "search_internal")
  {
    var bound :- Bind(MakeResultParameters, {"samples_summary", "paths"}, kwargs);
    Ok(FitResult(bound["samples_summary"], bound["paths"], Argument(bound, "samples"), Argument(bound, "search_internal"), NoneValue))
  }

  /** Passing an analysis to `make_result` makes no difference to the
      result. */
  lemma MakeResultIgnoresAnalysis(kwargs: map<string, Value>, analysis: Value)
    requires "analysis" in kwargs
    ensures MakeResult(kwargs) == MakeResult(kwargs["analysis" := analysis])
  {
    var other := kwargs["analysis" := analysis];
    assert forall k :: k in other <==> k in kwargs;
    assert Argument(other, "samples") == Argument(kwargs, "samples");
    assert Argument(other, "search_internal") == Argument(kwargs, "search_internal");
  }

  // --- Latent variables -----------------------------------------------------

  /** `compute_all_latent_variables`: the latent variables of the instance
      of every sample, one entry per sample, in order; None as soon as
      `compute_latent_variable` raises NotImplementedError, which is
      `compute` returning None. Each sample's instance is
      `sample.instance_for_model(model)`, given as `instanceFor`. */
  method ComputeAllLatentVariables<S, I>(samples: seq<S>, instanceFor: S -> I, compute: I -> Option<map<string, real>>)
    returns (r: Option<seq<map<string, real>>>)
    ensures r.None? <==> exists i :: 0 <= i < |samples| && compute(instanceFor(samples[i])).None?
    ensures r.Some? ==> |r.value| == |samples|
    ensures r.Some? ==> forall i :: 0 <= i < |samples| ==> Some(r.value[i]) == compute(instanceFor(samples[i]))
  {
    var latentVariables: seq<map<string, real>> := [];
    for i := 0 to |samples|
      invariant |latentVariables| == i
      invariant forall j :: 0 <= j < i ==> Some(latentVariables[j]) == compute(instanceFor(samples[j]))
    {
      var values := compute(instanceFor(samples[i]));
      if values.None? {
        return None;
      }
      latentVariables := latentVariables + [values.value];
    }
    r := Some(latentVariables);
  }
}
