/** The expectation-propagation outer loop
    (autofit/graphical/expectation_propagation/__init__.py).

    An `EPOptimiser` assigns an optimiser to every factor when it is built
    and then, in `run`, sweeps over the factors at most `max_steps` times.
    Its collaborators are passed in as an environment: each factor
    optimiser's `optimise`, the history callback `ep_history` (which decides
    termination from the entries recorded so far), and the rule by which an
    `IntervalCounter` of a given interval fires on its n-th call. Logging,
    plotting and saving figures are recorded as effects. */
module EPOptimiser {
  import opened Wrappers
  import opened EPStatus
  import FactorOptimiser

  type Factor = string
  type OptimiserId = string

  /** The approximation being refined: a mean field per factor. */
  type Approx = map<Factor, FactorOptimiser.MeanField>

  // ---------------------------------------------------------------------
  // Construction: which optimiser each factor gets

  /** `factor_order or self.factor_graph.factors`: an empty order is falsy. */
  function Factors(factorOrder: seq<Factor>, graphFactors: seq<Factor>): (r: seq<Factor>)
    ensures |factorOrder| > 0 ==> r == factorOrder
    ensures |factorOrder| == 0 ==> r == graphFactors
  {
    if |factorOrder| > 0 then factorOrder else graphFactors
  }

  function Keys<V>(m: seq<(Factor, V)>): (r: set<Factor>)
    ensures forall f :: f in r <==> exists k :: 0 <= k < |m| && m[k].0 == f
  {
    set k | 0 <= k < |m| :: m[k].0
  }

  predicate DistinctKeys<V>(m: seq<(Factor, V)>)
  {
    forall j, k :: 0 <= j < k < |m| ==> m[j].0 != m[k].0
  }

  /** `d.get(f, default)` on an ordered dictionary with distinct keys. */
  function Get<V>(m: seq<(Factor, V)>, f: Factor, default: V): (r: V)
    ensures (forall k :: 0 <= k < |m| ==> m[k].0 != f) ==> r == default
    ensures forall k :: 0 <= k < |m| && m[k].0 == f && (forall j :: 0 <= j < k ==> m[j].0 != f) ==> r == m[k].1
  {
    if |m| == 0 then default
    else if m[0].0 == f then m[0].1
    else
      var r := Get(m[1..], f, default);
      assert forall k :: 1 <= k < |m| ==> m[k] == m[1..][k - 1];
      r
  }

  /** The factors in order of first occurrence, as the keys of a dict
      comprehension over them come out. */
  function Dedup(s: seq<Factor>): (r: seq<Factor>)
    ensures forall f :: f in r <==> f in s
    ensures forall j, k :: 0 <= j < k < |r| ==> r[j] != r[k]
  {
    if |s| == 0 then []
    else
      var r := Dedup(s[..|s| - 1]);
      assert s == s[..|s| - 1] + [s[|s| - 1]];
      if s[|s| - 1] in r then r else r + [s[|s| - 1]]
  }

  datatype ConstructionError = MissingOptimisers(missing: set<Factor>)

  /** The `factor_optimisers` map `EPOptimiser.__init__` builds. Without a
      default optimiser the given map is used as it is and every factor must
      be in it; with one, each factor gets its given optimiser or the default. */
  function AssignOptimisers(factors: seq<Factor>, defaultOptimiser: Option<OptimiserId>,
                            given: seq<(Factor, OptimiserId)>)
    : (r: Result<seq<(Factor, OptimiserId)>, ConstructionError>)
  {
    if defaultOptimiser.None? then
      var missing := (set f | f in factors) - Keys(given);
      if missing != {} then Err(MissingOptimisers(missing)) else Ok(given)
    else
      var fs := Dedup(factors);
      Ok(seq(|fs|, k requires 0 <= k < |fs| => (fs[k], Get(given, fs[k], defaultOptimiser.value))))
  }

  /** Without a default, construction fails exactly when some factor has no
      optimiser, names exactly those factors, and otherwise keeps the given map. */
  lemma AssignWithoutDefault(factors: seq<Factor>, given: seq<(Factor, OptimiserId)>)
    ensures var r := AssignOptimisers(factors, None, given);
      && (r.Err? <==> exists f :: f in factors && f !in Keys(given))
      && (r.Err? ==> forall f :: f in r.error.missing <==> f in factors && f !in Keys(given))
      && (r.Ok? ==> r.value == given)
  {
    var missing := (set f | f in factors) - Keys(given);
    if exists f :: f in factors && f !in Keys(given) {
      var f :| f in factors && f !in Keys(given);
      assert f in missing;
    }
  }

  /** With a default, the map has each factor exactly once, in order of first
      occurrence, with its given optimiser when there is one and the default
      otherwise. */
  lemma AssignWithDefault(factors: seq<Factor>, default: OptimiserId, given: seq<(Factor, OptimiserId)>)
    requires DistinctKeys(given)
    ensures var r := AssignOptimisers(factors, Some(default), given);
      && r.Ok?
      && DistinctKeys(r.value)
      && Keys(r.value) == set f | f in factors
      && (forall k :: 0 <= k < |r.value| ==>
            (r.value[k].0 in Keys(given) ==> exists j :: 0 <= j < |given| && given[j] == r.value[k]))
      && (forall k :: 0 <= k < |r.value| ==> (r.value[k].0 !in Keys(given) ==> r.value[k].1 == default))
  {
    var r := AssignOptimisers(factors, Some(default), given).value;
    var fs := Dedup(factors);
    assert |r| == |fs|;
    forall f ensures f in Keys(r) <==> f in factors {
      if f in factors {
        assert f in fs;
        var k :| 0 <= k < |fs| && fs[k] == f;
        assert r[k].0 == f;
      }
    }
    forall k | 0 <= k < |r| && r[k].0 in Keys(given)
      ensures exists j :: 0 <= j < |given| && given[j] == r[k]
    {
      var j :| 0 <= j < |given| && given[j].0 == r[k].0;
      assert forall i :: 0 <= i < j ==> given[i].0 != r[k].0;
      assert given[j] == r[k];
    }
  }

  // ---------------------------------------------------------------------
  // The sweep loop, as a specification

  datatype ErrorKind = ValueErr | ArithmeticErr | RuntimeErr | OtherErr

  /** What `optimiser.optimise(factor, model_approx)` does: return a new
      approximation and status, or raise an error of some kind. */
  datatype Outcome = Returned(approx: Approx, status: Status) | Raised(kind: ErrorKind, message: string)

  datatype Effect = LogFactor(factor: Factor) | VisualiseFactor(factor: Factor) | SaveGraphFigure

  /** One call of the history callback: the factor, the approximation after
      it, and its status. */
  datatype Entry = Entry(factor: Factor, approx: Approx, status: Status)

  datatype Env = Env(
    optimise: (Factor, OptimiserId, Approx) -> Outcome,
    terminate: seq<Entry> -> bool,
    fires: (nat, nat) -> bool)

  /** The approximation in hand, the callback's entries, the effects so
      far, and how many times each interval counter has been called. */
  datatype EPState = EPState(approx: Approx, history: seq<Entry>, effects: seq<Effect>, logCalls: nat, visualiseCalls: nat)

  datatype Stop = Completed | Terminated | Crashed(message: string)

  datatype Sweep = Sweep(stop: Stop, state: EPState)

  /** The status recorded for an error `optimise` raised and `run` caught. */
  function ErrorStatus(factor: Factor, message: string): Status
  {
    Failed("Factor: " + factor + " experienced error " + message)
  }

  /** Logging and visualising of a factor whose status is truthy. */
  function FactorEffects(factor: Factor, status: Status, shouldLog: bool, shouldVisualise: bool): seq<Effect>
  {
    (if status.success && shouldLog then [LogFactor(factor)] else [])
    + (if status.success && shouldVisualise then [VisualiseFactor(factor)] else [])
  }

  /** One iteration of the inner loop. A ValueError, ArithmeticError or
      RuntimeError keeps the approximation and records a failed status; any
      other error leaves `run`. A callback returning True stops the sweep. */
  function VisitFactor(env: Env, factor: Factor, optimiser: OptimiserId, s: EPState,
                       shouldLog: bool, shouldVisualise: bool): (r: Sweep)
  {
    match env.optimise(factor, optimiser, s.approx)
    case Raised(OtherErr, message) => Sweep(Crashed(message), s)
    case Raised(_, message) =>
      AfterOptimise(env, factor, s, s.approx, ErrorStatus(factor, message), shouldLog, shouldVisualise)
    case Returned(approx, status) =>
      AfterOptimise(env, factor, s, approx, status, shouldLog, shouldVisualise)
  }

  function AfterOptimise(env: Env, factor: Factor, s: EPState, approx: Approx, status: Status,
                         shouldLog: bool, shouldVisualise: bool): (r: Sweep)
  {
    var history := s.history + [Entry(factor, approx, status)];
    if env.terminate(history) then Sweep(Terminated, s.(approx := approx, history := history))
    else Sweep(Completed, s.(approx := approx, history := history,
                             effects := s.effects + FactorEffects(factor, status, shouldLog, shouldVisualise)))
  }

  /** The inner loop over the factor optimisers, in map order. */
  function SweepSpec(env: Env, optimisers: seq<(Factor, OptimiserId)>, s: EPState,
                     shouldLog: bool, shouldVisualise: bool): (r: Sweep)
    decreases |optimisers|
  {
    if |optimisers| == 0 then Sweep(Completed, s)
    else
      var v := VisitFactor(env, optimisers[0].0, optimisers[0].1, s, shouldLog, shouldVisualise);
      if v.stop.Completed? then SweepSpec(env, optimisers[1..], v.state, shouldLog, shouldVisualise) else v
  }

  datatype RunResult = RunResult(result: Result<Approx, string>, state: EPState)

  /** The outer loop with `steps` sweeps left: both interval counters are
      polled at the start of each sweep; a sweep that completes saves the
      graph figure when visualising and goes on; termination returns the
      approximation in hand; an uncaught error leaves with it. */
  function RunSpec(env: Env, optimisers: seq<(Factor, OptimiserId)>, logInterval: nat, visualiseInterval: nat,
                   steps: nat, s: EPState): (r: RunResult)
    decreases steps
  {
    if steps == 0 then RunResult(Ok(s.approx), s)
    else
      var shouldLog := env.fires(logInterval, s.logCalls);
      var shouldVisualise := env.fires(visualiseInterval, s.visualiseCalls);
      var polled := s.(logCalls := s.logCalls + 1, visualiseCalls := s.visualiseCalls + 1);
      var sweep := SweepSpec(env, optimisers, polled, shouldLog, shouldVisualise);
      match sweep.stop
      case Completed =>
        var saved := sweep.state.(effects := sweep.state.effects + (if shouldVisualise then [SaveGraphFigure] else []));
        RunSpec(env, optimisers, logInterval, visualiseInterval, steps - 1, saved)
      case Terminated => RunResult(Ok(sweep.state.approx), sweep.state)
      case Crashed(message) => RunResult(Err(message), sweep.state)
  }

  // ---------------------------------------------------------------------
  // Properties of the loop

  /** A sweep leaves the interval counters alone and only ever appends to
      the history and the effects. */
  lemma {:induction false} SweepExtends(env: Env, optimisers: seq<(Factor, OptimiserId)>, s: EPState, sl: bool, sv: bool)
    ensures var r := SweepSpec(env, optimisers, s, sl, sv).state;
      && r.logCalls == s.logCalls && r.visualiseCalls == s.visualiseCalls
      && |s.history| <= |r.history| <= |s.history| + |optimisers|
      && r.history[..|s.history|] == s.history
      && |s.effects| <= |r.effects|
      && r.effects[..|s.effects|] == s.effects
    decreases |optimisers|
  {
    if |optimisers| > 0 {
      var v := VisitFactor(env, optimisers[0].0, optimisers[0].1, s, sl, sv);
      if v.stop.Completed? {
        SweepExtends(env, optimisers[1..], v.state, sl, sv);
        var r := SweepSpec(env, optimisers[1..], v.state, sl, sv).state;
        assert r.history[..|s.history|] == r.history[..|v.state.history|][..|s.history|];
        assert r.effects[..|s.effects|] == r.effects[..|v.state.effects|][..|s.effects|];
      }
    }
  }

  /** A sweep that completes records one entry per factor optimiser, for
      those factors in map order. */
  lemma {:induction false} CompletedSweepVisitsInOrder(env: Env, optimisers: seq<(Factor, OptimiserId)>, s: EPState, sl: bool, sv: bool)
    requires SweepSpec(env, optimisers, s, sl, sv).stop.Completed?
    ensures var r := SweepSpec(env, optimisers, s, sl, sv).state;
      && |r.history| == |s.history| + |optimisers|
      && forall k :: 0 <= k < |optimisers| ==> r.history[|s.history| + k].factor == optimisers[k].0
    decreases |optimisers|
  {
    if |optimisers| > 0 {
      var v := VisitFactor(env, optimisers[0].0, optimisers[0].1, s, sl, sv);
      CompletedSweepVisitsInOrder(env, optimisers[1..], v.state, sl, sv);
      SweepExtends(env, optimisers[1..], v.state, sl, sv);
      var r := SweepSpec(env, optimisers[1..], v.state, sl, sv).state;
      assert r.history[|s.history|] == v.state.history[|s.history|];
      forall k | 1 <= k < |optimisers| ensures r.history[|s.history| + k].factor == optimisers[k].0 {
        assert optimisers[k] == optimisers[1..][k - 1];
        assert |s.history| + k == |v.state.history| + (k - 1);
      }
    }
  }

  /** An effect a sweep may produce: a log only when the log counter fired,
      a visualisation only when the visualise counter fired, never the
      graph figure, and only for a factor among `entries` with a truthy
      status. */
  ghost predicate EffectGated(effect: Effect, entries: seq<Entry>, sl: bool, sv: bool)
  {
    && (effect.LogFactor? ==> sl)
    && (effect.VisualiseFactor? ==> sv)
    && !effect.SaveGraphFigure?
    && exists e :: e in entries && e.factor == effect.factor && e.status.success
  }

  /** An effect gated by some entries is gated by any entries that include
      them. */
  lemma GatedWiden(effect: Effect, entries: seq<Entry>, more: seq<Entry>, sl: bool, sv: bool)
    requires EffectGated(effect, entries, sl, sv)
    requires forall e :: e in entries ==> e in more
    ensures EffectGated(effect, more, sl, sv)
  {
    var e :| e in entries && e.factor == effect.factor && e.status.success;
    assert e in more;
  }

  /** A visit that completes appends one entry and only gated effects. */
  lemma VisitEffectsGated(env: Env, factor: Factor, optimiser: OptimiserId, s: EPState, sl: bool, sv: bool)
    requires VisitFactor(env, factor, optimiser, s, sl, sv).stop.Completed?
    ensures var r := VisitFactor(env, factor, optimiser, s, sl, sv).state;
      && |r.history| == |s.history| + 1 && r.history[..|s.history|] == s.history
      && |s.effects| <= |r.effects| && r.effects[..|s.effects|] == s.effects
      && forall k :: |s.effects| <= k < |r.effects| ==> EffectGated(r.effects[k], r.history[|s.history|..], sl, sv)
  {
    var r := VisitFactor(env, factor, optimiser, s, sl, sv).state;
    var e := r.history[|s.history|];
    assert r.history[|s.history|..] == [e];
    assert r.effects == s.effects + FactorEffects(factor, e.status, sl, sv);
  }

  /** A sweep with the log counter not firing logs nothing, and one with the
      visualise counter not firing visualises nothing; a sweep in which every
      status is falsy does neither. */
  lemma {:induction false} SweepEffectsGated(env: Env, optimisers: seq<(Factor, OptimiserId)>, s: EPState, sl: bool, sv: bool)
    ensures var r := SweepSpec(env, optimisers, s, sl, sv).state;
      && |s.effects| <= |r.effects| && |s.history| <= |r.history|
      && forall k :: |s.effects| <= k < |r.effects| ==> EffectGated(r.effects[k], r.history[|s.history|..], sl, sv)
    decreases |optimisers|
  {
    SweepExtends(env, optimisers, s, sl, sv);
    if |optimisers| > 0 {
      var v := VisitFactor(env, optimisers[0].0, optimisers[0].1, s, sl, sv);
      if v.stop.Completed? {
        VisitEffectsGated(env, optimisers[0].0, optimisers[0].1, s, sl, sv);
        SweepEffectsGated(env, optimisers[1..], v.state, sl, sv);
        SweepExtends(env, optimisers[1..], v.state, sl, sv);
        var r := SweepSpec(env, optimisers[1..], v.state, sl, sv).state;
        assert r == SweepSpec(env, optimisers, s, sl, sv).state;
        var mid := |v.state.history|;
        assert r.history[..mid] == v.state.history;
        assert v.state.history[|s.history|..] == r.history[|s.history|..mid];
        assert r.history[|s.history|..] == r.history[|s.history|..mid] + r.history[mid..];
        forall k | |s.effects| <= k < |r.effects|
          ensures EffectGated(r.effects[k], r.history[|s.history|..], sl, sv)
        {
          if k < |v.state.effects| {
            assert r.effects[k] == v.state.effects[k];
            GatedWiden(r.effects[k], v.state.history[|s.history|..], r.history[|s.history|..], sl, sv);
          } else {
            GatedWiden(r.effects[k], r.history[mid..], r.history[|s.history|..], sl, sv);
          }
        }
      }
    }
  }

  /** A caught error keeps the approximation and records a failed status
      naming the factor. */
  lemma CaughtErrorKeepsApprox(env: Env, factor: Factor, optimiser: OptimiserId, s: EPState, sl: bool, sv: bool)
    requires env.optimise(factor, optimiser, s.approx).Raised?
    requires env.optimise(factor, optimiser, s.approx).kind != OtherErr
    ensures var v := VisitFactor(env, factor, optimiser, s, sl, sv);
      && v.state.approx == s.approx
      && v.state.history == s.history + [Entry(factor, s.approx, ErrorStatus(factor, env.optimise(factor, optimiser, s.approx).message))]
      && !v.state.history[|s.history|].status.success
      && (v.stop.Completed? <==> !env.terminate(v.state.history))
  {
  }

  /** `run` starts at most `steps` sweeps: each interval counter is called
      once per sweep started, and exactly `steps` times when no sweep stops early. */
  lemma {:induction false} RunPollsOncePerSweep(env: Env, optimisers: seq<(Factor, OptimiserId)>, li: nat, vi: nat, steps: nat, s: EPState)
    ensures var r := RunSpec(env, optimisers, li, vi, steps, s).state;
      && r.logCalls == r.visualiseCalls - s.visualiseCalls + s.logCalls
      && s.logCalls <= r.logCalls <= s.logCalls + steps
    decreases steps
  {
    if steps > 0 {
      var shouldLog := env.fires(li, s.logCalls);
      var shouldVisualise := env.fires(vi, s.visualiseCalls);
      var polled := s.(logCalls := s.logCalls + 1, visualiseCalls := s.visualiseCalls + 1);
      SweepExtends(env, optimisers, polled, shouldLog, shouldVisualise);
      var sweep := SweepSpec(env, optimisers, polled, shouldLog, shouldVisualise);
      if sweep.stop.Completed? {
        var saved := sweep.state.(effects := sweep.state.effects + (if shouldVisualise then [SaveGraphFigure] else []));
        RunPollsOncePerSweep(env, optimisers, li, vi, steps - 1, saved);
      }
    }
  }

  /** When the callback never asks to stop and nothing escapes, `run` makes
      every one of its sweeps, each recording every factor. */
  lemma {:induction false} UninterruptedRun(env: Env, optimisers: seq<(Factor, OptimiserId)>, li: nat, vi: nat, steps: nat, s: EPState)
    requires forall h :: !env.terminate(h)
    requires forall f, o, a :: env.optimise(f, o, a).Raised? ==> env.optimise(f, o, a).kind != OtherErr
    ensures var r := RunSpec(env, optimisers, li, vi, steps, s);
      && r.result == Ok(r.state.approx)
      && r.state.logCalls == s.logCalls + steps
      && |r.state.history| == |s.history| + steps * |optimisers|
    decreases steps
  {
    if steps > 0 {
      var shouldLog := env.fires(li, s.logCalls);
      var shouldVisualise := env.fires(vi, s.visualiseCalls);
      var polled := s.(logCalls := s.logCalls + 1, visualiseCalls := s.visualiseCalls + 1);
      SweepNeverStops(env, optimisers, polled, shouldLog, shouldVisualise);
      CompletedSweepVisitsInOrder(env, optimisers, polled, shouldLog, shouldVisualise);
      SweepExtends(env, optimisers, polled, shouldLog, shouldVisualise);
      var sweep := SweepSpec(env, optimisers, polled, shouldLog, shouldVisualise);
      var saved := sweep.state.(effects := sweep.state.effects + (if shouldVisualise then [SaveGraphFigure] else []));
      UninterruptedRun(env, optimisers, li, vi, steps - 1, saved);
      assert steps * |optimisers| == |optimisers| + (steps - 1) * |optimisers|;
    }
  }

  /** Under the same conditions a sweep always completes. */
  lemma {:induction false} SweepNeverStops(env: Env, optimisers: seq<(Factor, OptimiserId)>, s: EPState, sl: bool, sv: bool)
    requires forall h :: !env.terminate(h)
    requires forall f, o, a :: env.optimise(f, o, a).Raised? ==> env.optimise(f, o, a).kind != OtherErr
    ensures SweepSpec(env, optimisers, s, sl, sv).stop.Completed?
    decreases |optimisers|
  {
    if |optimisers| > 0 {
      var v := VisitFactor(env, optimisers[0].0, optimisers[0].1, s, sl, sv);
      SweepNeverStops(env, optimisers[1..], v.state, sl, sv);
    }
  }

  /** A callback that always asks to stop ends `run` after the first factor
      of the first sweep, returning the approximation it produced. */
  lemma StopAtOnce(env: Env, optimisers: seq<(Factor, OptimiserId)>, li: nat, vi: nat, steps: nat, s: EPState)
    requires forall h :: env.terminate(h)
    requires steps > 0 && |optimisers| > 0
    requires env.optimise(optimisers[0].0, optimisers[0].1, s.approx).Returned?
    ensures var r := RunSpec(env, optimisers, li, vi, steps, s);
      && r.result == Ok(env.optimise(optimisers[0].0, optimisers[0].1, s.approx).approx)
      && |r.state.history| == |s.history| + 1
      && r.state.logCalls == s.logCalls + 1
  {
  }

  // ---------------------------------------------------------------------
  // The optimiser object

  class EPOptimiser {
    const name: string
    const factors: seq<Factor>
    const factorOptimisers: seq<(Factor, OptimiserId)>
    const logInterval: nat
    const visualiseInterval: nat
    var history: seq<Entry>
    var effects: seq<Effect>
    var logCalls: nat
    var visualiseCalls: nat

    /** The state `run` starts from with approximation `approx`. */
    function State(approx: Approx): EPState
      reads this
    {
      EPState(approx, history, effects, logCalls, visualiseCalls)
    }

    constructor (name: string, factors: seq<Factor>, factorOptimisers: seq<(Factor, OptimiserId)>,
                 logInterval: nat, visualiseInterval: nat)
      ensures this.name == name && this.factors == factors && this.factorOptimisers == factorOptimisers
      ensures this.logInterval == logInterval && this.visualiseInterval == visualiseInterval
      ensures history == [] && effects == [] && logCalls == 0 && visualiseCalls == 0
    {
      this.name := name;
      this.factors := factors;
      this.factorOptimisers := factorOptimisers;
      this.logInterval := logInterval;
      this.visualiseInterval := visualiseInterval;
      history := [];
      effects := [];
      logCalls := 0;
      visualiseCalls := 0;
    }

    /** `EPOptimiser.__init__`: the factors and the optimiser map, or the
        ValueError naming the factors without an optimiser. */
    static method Create(graphFactors: seq<Factor>, name: string, defaultOptimiser: Option<OptimiserId>,
                         factorOptimisers: Option<seq<(Factor, OptimiserId)>>, factorOrder: seq<Factor>,
                         logInterval: nat, visualiseInterval: nat)
      returns (r: Result<EPOptimiser, ConstructionError>)
      ensures var factors := Factors(factorOrder, graphFactors);
              var assignment := AssignOptimisers(factors, defaultOptimiser, factorOptimisers.GetOr([]));
        && (r.Ok? <==> assignment.Ok?)
        && (r.Err? ==> r.error == assignment.error)
        && (r.Ok? ==> && fresh(r.value)
                      && r.value.factors == factors
                      && r.value.factorOptimisers == assignment.value
                      && r.value.name == name
                      && r.value.logInterval == logInterval && r.value.visualiseInterval == visualiseInterval
                      && r.value.history == [] && r.value.effects == []
                      && r.value.logCalls == 0 && r.value.visualiseCalls == 0)
    {
      var factors := Factors(factorOrder, graphFactors);
      var assignment := AssignOptimisers(factors, defaultOptimiser, factorOptimisers.GetOr([]));
      if assignment.Err? {
        r := Err(assignment.error);
      } else {
        var o := new EPOptimiser(name, factors, assignment.value, logInterval, visualiseInterval);
        r := Ok(o);
      }
    }

    /** The inner loop of `run`: each factor optimiser in map order, until
        the callback returns True or an uncaught error is raised. */
    method SweepFactors(env: Env, start: EPState, shouldLog: bool, shouldVisualise: bool) returns (stop: Stop, s: EPState)
      ensures Sweep(stop, s) == SweepSpec(env, factorOptimisers, start, shouldLog, shouldVisualise)
    {
      s := start;
      stop := Completed;
      var i := 0;
      while i < |factorOptimisers| && stop.Completed?
        invariant i <= |factorOptimisers|
        invariant SweepSpec(env, factorOptimisers, start, shouldLog, shouldVisualise)
          == if stop.Completed? then SweepSpec(env, factorOptimisers[i..], s, shouldLog, shouldVisualise)
             else Sweep(stop, s)
      {
        assert factorOptimisers[i..][1..] == factorOptimisers[i + 1..];
        var (factor, optimiser) := factorOptimisers[i];
        var outcome := env.optimise(factor, optimiser, s.approx);
        if outcome.Raised? && outcome.kind == OtherErr {
          stop := Crashed(outcome.message);
        } else {
          var status: Status;
          if outcome.Returned? {
            s := s.(approx := outcome.approx);
            status := outcome.status;
          } else {
            status := ErrorStatus(factor, outcome.message);
          }
          s := s.(history := s.history + [Entry(factor, s.approx, status)]);
          if env.terminate(s.history) {
            stop := Terminated;
          } else {
            s := s.(effects := s.effects + FactorEffects(factor, status, shouldLog, shouldVisualise));
          }
        }
        i := i + 1;
      }
    }

    /** `run(model_approx, max_steps)`. */
    method Run(env: Env, modelApprox: Approx, maxSteps: nat) returns (r: Result<Approx, string>)
      modifies this
      ensures var spec := RunSpec(env, factorOptimisers, logInterval, visualiseInterval, maxSteps, old(State(modelApprox)));
        && r == spec.result
        && State(spec.state.approx) == spec.state
    {
      var s := State(modelApprox);
      ghost var start := s;
      var step := 0;
      var stopped := false;
      r := Ok(modelApprox);
      while step < maxSteps && !stopped
        invariant step <= maxSteps
        invariant RunSpec(env, factorOptimisers, logInterval, visualiseInterval, maxSteps, start)
          == if stopped then RunResult(r, s)
             else RunSpec(env, factorOptimisers, logInterval, visualiseInterval, maxSteps - step, s)
        decreases maxSteps - step + (if stopped then 0 else 1)
      {
        ghost var before := s;
        var shouldLog := env.fires(logInterval, s.logCalls);
        var shouldVisualise := env.fires(visualiseInterval, s.visualiseCalls);
        s := s.(logCalls := s.logCalls + 1, visualiseCalls := s.visualiseCalls + 1);
        ghost var polled := s;
        var stop: Stop;
        stop, s := SweepFactors(env, s, shouldLog, shouldVisualise);
        match stop {
          case Completed =>
            ghost var swept := s;
            if shouldVisualise {
              s := s.(effects := s.effects + [SaveGraphFigure]);
            } else {
              assert s.effects + [] == s.effects;
            }
            assert s == swept.(effects := swept.effects + (if shouldVisualise then [SaveGraphFigure] else []));
            assert polled == before.(logCalls := before.logCalls + 1, visualiseCalls := before.visualiseCalls + 1);
            assert RunSpec(env, factorOptimisers, logInterval, visualiseInterval, maxSteps - step, before)
              == RunSpec(env, factorOptimisers, logInterval, visualiseInterval, maxSteps - (step + 1), s);
            step := step + 1;
          case Terminated =>
            r := Ok(s.approx);
            assert RunSpec(env, factorOptimisers, logInterval, visualiseInterval, maxSteps - step, before) == RunResult(r, s);
            stopped := true;
          case Crashed(message) =>
            r := Err(message);
            assert RunSpec(env, factorOptimisers, logInterval, visualiseInterval, maxSteps - step, before) == RunResult(r, s);
            stopped := true;
        }
      }
      if !stopped {
        r := Ok(s.approx);
      }
      history := s.history;
      effects := s.effects;
      logCalls := s.logCalls;
      visualiseCalls := s.visualiseCalls;
    }
  }
}
