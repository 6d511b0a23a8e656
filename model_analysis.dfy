/** An analysis paired with its own model, and a combined analysis that
    gives each of its analyses the model it was paired with. */
module ModelAnalyses {
  import opened Wrappers
  import opened Analyses

  // --- Log likelihood ---------------------------------------------------------

  /** The analysis a chain of `ModelAnalysis` wrappers ends in. */
  function Unwrapped(a: Analysis): (r: Analysis)
    ensures !r.ModelAnalysis?
  {
    if a.ModelAnalysis? then Unwrapped(a.analysis) else a
  }

  /** `log_likelihood_function`: a `ModelAnalysis` asks the analysis it
      wraps. A user's analysis computes `userLikelihood(id, instance)` and a
      combined one `combinedLikelihood(analyses, instance)`, neither of which
      is part of this model; None is an exception. */
  function LogLikelihood<I>(a: Analysis, instance: I, userLikelihood: (nat, I) -> Option<real>,
                            combinedLikelihood: (seq<Analysis>, I) -> Option<real>): Option<real>
  {
    match a
    case UserAnalysis(id) => userLikelihood(id, instance)
    case ModelAnalysis(inner, _) => LogLikelihood(inner, instance, userLikelihood, combinedLikelihood)
    case CombinedAnalysis(analyses) => combinedLikelihood(analyses, instance)
  }

  /** However many models an analysis is wrapped with, its likelihood is
      that of the analysis it ends in. */
  lemma {:induction false} LogLikelihoodUnwraps<I>(a: Analysis, instance: I, userLikelihood: (nat, I) -> Option<real>,
                                                   combinedLikelihood: (seq<Analysis>, I) -> Option<real>)
    ensures LogLikelihood(a, instance, userLikelihood, combinedLikelihood)
         == LogLikelihood(Unwrapped(a), instance, userLikelihood, combinedLikelihood)
  {
    if a.ModelAnalysis? {
      LogLikelihoodUnwraps(a.analysis, instance, userLikelihood, combinedLikelihood);
    }
  }

  /** `with_model` keeps the likelihood of every instance. */
  lemma WithModelKeepsLikelihood<I>(a: Analysis, model: Model, instance: I, userLikelihood: (nat, I) -> Option<real>,
                                    combinedLikelihood: (seq<Analysis>, I) -> Option<real>)
    ensures LogLikelihood(WithModel(a, model), instance, userLikelihood, combinedLikelihood)
         == LogLikelihood(a, instance, userLikelihood, combinedLikelihood)
    ensures WithModel(a, model).model == model
  {
  }

  // --- Making a result -----------------------------------------------------

  /** The parameters of `ModelAnalysis.make_result`, in order. */
  const ModelAnalysisMakeResultParameters: seq<string> := ["samples", "model", "sigma", "use_errors", "use_widths"]

  /** The argument bound to `name`, or `default`. */
  function ArgumentOr(bound: map<string, Value>, name: string, default: Value): Value
  {
    if name in bound then bound[name] else default
  }

  /** The keyword arguments `ModelAnalysis.make_result` passes on. */
  function Forwarded(bound: map<string, Value>): (r: map<string, Value>)
    requires "samples" in bound && "model" in bound
    ensures r.Keys == {"samples", "model", "sigma", "use_errors", "use_widths"}
    ensures r["samples"] == bound["samples"] && r["model"] == bound["model"]
    ensures forall k :: k in bound && k in r ==> r[k] == bound[k]
    ensures "sigma" !in bound ==> r["sigma"] == Number(1.0)
    ensures "use_errors" !in bound ==> r["use_errors"] == Flag(true)
    ensures "use_widths" !in bound ==> r["use_widths"] == Flag(false)
  {
    map["samples" := bound["samples"], "model" := bound["model"],
        "sigma" := ArgumentOr(bound, "sigma", Number(1.0)),
        "use_errors" := ArgumentOr(bound, "use_errors", Flag(true)),
        "use_widths" := ArgumentOr(bound, "use_widths", Flag(false))]
  }

  /** `make_result` called with keyword arguments, as written: a
      `ModelAnalysis` takes `samples`, `model`, `sigma`, `use_errors` and
      `use_widths` and passes them on by keyword. A combined analysis's
      `make_result` is not part of this model and is `combinedMakeResult`. */
  function MakeResultAsWritten(a: Analysis, kwargs: map<string, Value>,
                               combinedMakeResult: (seq<Analysis>, map<string, Value>) -> Result<FitResult, string>): Result<FitResult, string>
  {
    match a
    case UserAnalysis(_) => MakeResult(kwargs)
    case ModelAnalysis(inner, _) =>
      var bound :- Bind(ModelAnalysisMakeResultParameters, {"samples", "model"}, kwargs);
      MakeResultAsWritten(inner, Forwarded(bound), combinedMakeResult)
    case CombinedAnalysis(analyses) => combinedMakeResult(analyses, kwargs)
  }

  /** A user's analysis wrapped in models zero or more times. */
  predicate WrapsUserAnalysis(a: Analysis)
  {
    a.UserAnalysis? || (a.ModelAnalysis? && WrapsUserAnalysis(a.analysis))
  }

  /** As written, `make_result` of a `ModelAnalysis` around a user's
      analysis always raises TypeError: the keyword `model` it passes on is
      not a parameter of `Analysis.make_result`. */
  lemma {:induction false} MakeResultAsWrittenFails(a: Analysis, kwargs: map<string, Value>,
                                                    combinedMakeResult: (seq<Analysis>, map<string, Value>) -> Result<FitResult, string>)
    requires a.ModelAnalysis? && WrapsUserAnalysis(a)
    ensures MakeResultAsWritten(a, kwargs, combinedMakeResult) == Err("TypeError")
  {
    var bound := Bind(ModelAnalysisMakeResultParameters, {"samples", "model"}, kwargs);
    if bound.Ok? {
      var forwarded := Forwarded(bound.value);
      if a.analysis.UserAnalysis? {
        assert "model" !in MakeResultParameters;
        assert MakeResult(forwarded).Err?;
      } else {
        MakeResultAsWrittenFails(a.analysis, forwarded, combinedMakeResult);
      }
    }
  }

  /** `make_result` with `ModelAnalysis` forwarding the parameters of
      `Analysis.make_result` unchanged. */
  function MakeResultFixed(a: Analysis, kwargs: map<string, Value>,
                           combinedMakeResult: (seq<Analysis>, map<string, Value>) -> Result<FitResult, string>): Result<FitResult, string>
  {
    match a
    case UserAnalysis(_) => MakeResult(kwargs)
    case ModelAnalysis(inner, _) =>
      var bound :- Bind(MakeResultParameters, {"samples_summary", "paths"}, kwargs);
      MakeResultFixed(inner, bound, combinedMakeResult)
    case CombinedAnalysis(analyses) => combinedMakeResult(analyses, kwargs)
  }

  /** With forwarding fixed, a `ModelAnalysis` around a user's analysis
      makes exactly the result the user's analysis makes, errors
      included. */
  lemma {:induction false} MakeResultFixedForwards(a: Analysis, kwargs: map<string, Value>,
                                                   combinedMakeResult: (seq<Analysis>, map<string, Value>) -> Result<FitResult, string>)
    requires WrapsUserAnalysis(a)
    ensures MakeResultFixed(a, kwargs, combinedMakeResult) == MakeResult(kwargs)
  {
    if a.ModelAnalysis? {
      var bound := Bind(MakeResultParameters, {"samples_summary", "paths"}, kwargs);
      if bound.Ok? {
        MakeResultFixedForwards(a.analysis, kwargs, combinedMakeResult);
      } else {
        assert MakeResult(kwargs).Err?;
      }
    }
  }

  // --- Models per analysis ----------------------------------------------------

  /** The model one analysis is fitted with: its own when it is a
      `ModelAnalysis`, else the default. */
  function ModelFor(analysis: Analysis, default: Model): Model
  {
    if analysis.ModelAnalysis? then analysis.model else default
  }

  /** `CombinedModelAnalysis.modify_model`: the collection of models, one
      per analysis and in the same order. `analyses` are the analyses the
      entries of `self.analyses` wrap (their `.analysis`). */
  function ModifyModel(analyses: seq<Analysis>, model: Model): (r: seq<Model>)
    ensures |r| == |analyses|
    ensures forall i :: 0 <= i < |analyses| ==>
      r[i] == (if analyses[i].ModelAnalysis? then analyses[i].model else model)
  {
    if |analyses| == 0 then []
    else [ModelFor(analyses[0], model)] + ModifyModel(analyses[1..], model)
  }

  /** Without any `ModelAnalysis`, every analysis is fitted with the
      default model. */
  lemma ModifyModelWithoutOwnModels(analyses: seq<Analysis>, model: Model)
    requires forall i :: 0 <= i < |analyses| ==> !analyses[i].ModelAnalysis?
    ensures ModifyModel(analyses, model) == seq(|analyses|, _ => model)
  {
  }

  /** When every analysis has its own model, the default is not used. */
  lemma ModifyModelIgnoresDefault(analyses: seq<Analysis>, model: Model, other: Model)
    requires forall i :: 0 <= i < |analyses| ==> analyses[i].ModelAnalysis?
    ensures ModifyModel(analyses, model) == ModifyModel(analyses, other)
  {
  }

  /** The models of two groups of analyses, concatenated, are those of the
      concatenated groups. */
  lemma ModifyModelConcat(a: seq<Analysis>, b: seq<Analysis>, model: Model)
    ensures ModifyModel(a + b, model) == ModifyModel(a, model) + ModifyModel(b, model)
  {
  }
}
