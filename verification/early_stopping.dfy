/** The early-stopping decision state machine of model/train.py: a
    configuration fixed at construction, a state holding the best metric seen
    (absent before the first call) and the count of consecutive non-improving
    calls, and a pure `Step` that consumes one metric and says whether to stop. */
module EarlyStopping {
  import opened Wrappers
  import opened Metrics

  datatype Mode = Min | Max

  datatype Config = Config(mode: Mode, minDelta: real, patience: int, percentage: bool)

  datatype State = State(best: Option<Metric>, numBadEpochs: nat)

  /** The `ValueError` raised for an unknown mode, with its message. */
  datatype ConfigError = ValueError(message: string)

  /** The state of a freshly constructed stopper. */
  const Fresh: State := State(None, 0)

  function ParseMode(name: string): Result<Mode, ConfigError> {
    if name == "min" then Success(Min)
    else if name == "max" then Success(Max)
    else Failure(ValueError("mode " + name + " is unknown!"))
  }

  /** Construction. The mode is validated before the `patience == 0`
      override is looked at, so an unknown mode is rejected whatever the
      patience; any valid mode yields a fresh state. */
  function New(mode: string, minDelta: real, patience: int, percentage: bool): (r: Result<(Config, State), ConfigError>)
    ensures r.Failure? <==> mode != "min" && mode != "max"
    ensures r.Failure? ==> r.error.message == "mode " + mode + " is unknown!"
    ensures r.Success? ==> r.value.1 == Fresh
    ensures r.Success? ==> r.value.0 == Config(if mode == "min" then Min else Max, minDelta, patience, percentage)
  {
    var m :- ParseMode(mode);
    Success((Config(m, minDelta, patience, percentage), Fresh))
  }

  /** The comparison `_init_is_better` installs: beyond `best` by more than
      `minDelta`, taken either as an absolute amount or as a percentage of
      `best`, in the direction the mode names. */
  predicate Improves(cfg: Config, a: Metric, best: Metric) {
    var margin := if cfg.percentage then Times(best, cfg.minDelta / 100.0) else Finite(cfg.minDelta);
    match cfg.mode
    case Min => Less(a, Sub(best, margin))
    case Max => Greater(a, Add(best, margin))
  }

  /** The stopper's `is_better`: the constructor replaces the comparison by
      one that always answers true when the patience is zero. */
  predicate IsBetter(cfg: Config, a: Metric, best: Metric) {
    cfg.patience == 0 || Improves(cfg, a, best)
  }

  /** One call of `step`: the new state and whether training should stop. */
  function Step(cfg: Config, st: State, m: Metric): (State, bool) {
    if cfg.patience == 0 then (st, false)
    else match st.best
      case None => (st.(best := Some(m)), false)
      case Some(b) =>
        if m.NaN? then (st, true)
        else
          var st' := if IsBetter(cfg, m, b) then State(Some(m), 0)
                     else st.(numBadEpochs := st.numBadEpochs + 1);
          (st', st'.numBadEpochs >= cfg.patience)
  }

  /** Feed the metrics one after the other: the final state and the answer
      of every call, in order. */
  function Run(cfg: Config, st: State, ms: seq<Metric>): (r: (State, seq<bool>))
    ensures |r.1| == |ms|
    decreases |ms|
  {
    if |ms| == 0 then (st, [])
    else
      var prev := Run(cfg, st, ms[..|ms| - 1]);
      var next := Step(cfg, prev.0, ms[|ms| - 1]);
      (next.0, prev.1 + [next.1])
  }

  lemma RunSnoc(cfg: Config, st: State, ms: seq<Metric>, m: Metric)
    ensures Run(cfg, st, ms + [m]).0 == Step(cfg, Run(cfg, st, ms).0, m).0
    ensures Run(cfg, st, ms + [m]).1 == Run(cfg, st, ms).1 + [Step(cfg, Run(cfg, st, ms).0, m).1]
  {
    assert (ms + [m])[..|ms|] == ms;
  }

  /** Running two streams back to back is running the second from where the first left off. */
  lemma {:induction false} RunAppend(cfg: Config, st: State, xs: seq<Metric>, ys: seq<Metric>)
    ensures Run(cfg, st, xs + ys).0 == Run(cfg, Run(cfg, st, xs).0, ys).0
    ensures Run(cfg, st, xs + ys).1 == Run(cfg, st, xs).1 + Run(cfg, Run(cfg, st, xs).0, ys).1
    decreases |ys|
  {
    if |ys| == 0 {
      assert xs + ys == xs;
    } else {
      var init := ys[..|ys| - 1];
      var last := ys[|ys| - 1];
      assert xs + ys == (xs + init) + [last];
      assert ys == init + [last];
      RunAppend(cfg, st, xs, init);
      RunSnoc(cfg, st, xs + init, last);
      RunSnoc(cfg, Run(cfg, st, xs).0, init, last);
    }
  }

  /** The answers to a prefix of a stream are a prefix of the answers. */
  lemma RunPrefix(cfg: Config, st: State, ms: seq<Metric>, k: nat)
    requires k <= |ms|
    ensures Run(cfg, st, ms[..k]).1 == Run(cfg, st, ms).1[..k]
  {
    assert ms == ms[..k] + ms[k..];
    RunAppend(cfg, st, ms[..k], ms[k..]);
  }

  // ---- single calls --------------------------------------------------------

  /** The first call records the metric as `best`, NaN included, leaves the
      counter alone and never stops. */
  lemma StepFirstCall(cfg: Config, st: State, m: Metric)
    requires cfg.patience != 0 && st.best.None?
    ensures Step(cfg, st, m) == (State(Some(m), st.numBadEpochs), false)
  {
  }

  /** After the first call a NaN stops at once and changes nothing. */
  lemma StepNaNAfterFirst(cfg: Config, st: State)
    requires cfg.patience != 0 && st.best.Some?
    ensures Step(cfg, st, NaN) == (st, true)
  {
  }

  /** An improvement becomes the new best and clears the counter; with a
      positive patience that call does not stop. */
  lemma StepImprovement(cfg: Config, st: State, m: Metric)
    requires cfg.patience != 0 && st.best.Some? && Improves(cfg, m, st.best.value)
    ensures Step(cfg, st, m).0 == State(Some(m), 0)
    ensures Step(cfg, st, m).1 <==> cfg.patience < 0
  {
  }

  /** A finite non-improvement keeps the best, adds exactly one to the counter
      and stops exactly when the counter has reached the patience. */
  lemma StepNonImprovement(cfg: Config, st: State, m: Metric)
    requires cfg.patience != 0 && st.best.Some? && m.Finite? && !Improves(cfg, m, st.best.value)
    ensures Step(cfg, st, m).0 == State(st.best, st.numBadEpochs + 1)
    ensures Step(cfg, st, m).1 <==> st.numBadEpochs + 1 >= cfg.patience
  {
  }

  // ---- the comparator ------------------------------------------------------

  /** Nothing improves on a NaN best, and a NaN improves on nothing. */
  lemma NaNNeverImproves(cfg: Config, m: Metric)
    ensures !Improves(cfg, m, NaN) && !Improves(cfg, NaN, m)
  {
  }

  /** With absolute comparison the max mode is the min mode on negated values. */
  lemma MaxMirrorsMin(minDelta: real, a: real, best: real)
    ensures Improves(Config(Max, minDelta, 1, false), Finite(a), Finite(best))
        <==> Improves(Config(Min, minDelta, 1, false), Finite(-a), Finite(-best))
  {
  }

  /** In percentage form with min mode, a `minDelta` of 10 around a best of
      100 demands a value below 90: 91 is no improvement, 89 is. */
  lemma PercentageExample()
    ensures !Improves(Config(Min, 10.0, 1, true), Finite(91.0), Finite(100.0))
    ensures Improves(Config(Min, 10.0, 1, true), Finite(89.0), Finite(100.0))
  {
  }

  /** The absolute comparison is a strict threshold at `minDelta` below
      (min mode) or above (max mode) the best. */
  lemma AbsoluteThreshold(cfg: Config, a: real, best: real)
    requires !cfg.percentage
    ensures cfg.mode == Min ==> (Improves(cfg, Finite(a), Finite(best)) <==> best - a > cfg.minDelta)
    ensures cfg.mode == Max ==> (Improves(cfg, Finite(a), Finite(best)) <==> a - best > cfg.minDelta)
  {
  }

  /** The percentage comparison is the absolute one with a margin of
      `minDelta` percent of the best, in either mode. */
  lemma PercentageIsScaledAbsolute(cfg: Config, a: Metric, b: real)
    requires cfg.percentage
    ensures Improves(cfg, a, Finite(b))
        <==> Improves(cfg.(percentage := false, minDelta := b * cfg.minDelta / 100.0), a, Finite(b))
  {
  }

  /** The percentage margin takes the sign of the best: with a negative best,
      min mode counts a larger (worse) value as an improvement. With best
      -100 and `minDelta` 10 the threshold is -90, so -95 improves. */
  lemma NegativeBestPercentage()
    ensures Improves(Config(Min, 10.0, 1, true), Finite(-95.0), Finite(-100.0))
    ensures Improves(Config(Max, 10.0, 1, true), Finite(-105.0), Finite(-100.0))
  {
  }

  // ---- patience zero -------------------------------------------------------

  /** With zero patience the replaced comparison accepts every pair. */
  lemma PatienceZeroAlwaysBetter(cfg: Config, a: Metric, best: Metric)
    requires cfg.patience == 0
    ensures IsBetter(cfg, a, best)
  {
  }

  /** With zero patience no call ever stops and the state never moves. */
  lemma {:induction false} PatienceZeroNeverStops(cfg: Config, st: State, ms: seq<Metric>)
    requires cfg.patience == 0
    ensures Run(cfg, st, ms).0 == st
    ensures forall i :: 0 <= i < |ms| ==> !Run(cfg, st, ms).1[i]
    decreases |ms|
  {
    if |ms| > 0 {
      PatienceZeroNeverStops(cfg, st, ms[..|ms| - 1]);
    }
  }

  // ---- streams ------------------------------------------------------------

  /** From a recorded best, a stream of finite values none of which improves
      on it keeps the best, counts every value, and the i-th call stops
      exactly when the counter has reached the patience. */
  lemma {:induction false} StreakWithoutImprovement(cfg: Config, st: State, ms: seq<Metric>)
    requires cfg.patience != 0 && st.best.Some? && AllFinite(ms)
    requires forall i :: 0 <= i < |ms| ==> !Improves(cfg, ms[i], st.best.value)
    ensures Run(cfg, st, ms).0 == State(st.best, st.numBadEpochs + |ms|)
    ensures forall i :: 0 <= i < |ms| ==> (Run(cfg, st, ms).1[i] <==> st.numBadEpochs + i + 1 >= cfg.patience)
    decreases |ms|
  {
    if |ms| > 0 {
      var init := ms[..|ms| - 1];
      assert forall i :: 0 <= i < |init| ==> init[i] == ms[i];
      StreakWithoutImprovement(cfg, st, init);
    }
  }

  /** A NaN first observation is kept as the best, and then no finite value
      can ever count as an improvement: every later finite call adds one to
      the counter. */
  lemma NaNFirstNeverImproves(cfg: Config, ms: seq<Metric>)
    requires cfg.patience != 0 && AllFinite(ms)
    ensures Run(cfg, Fresh, [NaN] + ms).0 == State(Some(NaN), |ms|)
    ensures forall i :: 1 <= i <= |ms| ==> (Run(cfg, Fresh, [NaN] + ms).1[i] <==> i >= cfg.patience)
  {
    var st := Run(cfg, Fresh, [NaN]).0;
    RunSnoc(cfg, Fresh, [], NaN);
    assert [] + [NaN] == [NaN];
    assert st == State(Some(NaN), 0);
    forall i | 0 <= i < |ms| ensures !Improves(cfg, ms[i], NaN) {
      NaNNeverImproves(cfg, ms[i]);
    }
    StreakWithoutImprovement(cfg, st, ms);
    RunAppend(cfg, Fresh, [NaN], ms);
  }

  /** After an improvement, the patience-th consecutive non-improving call is
      the first one to stop. */
  lemma PatienceThCallStops(cfg: Config, best: Metric, ms: seq<Metric>)
    requires cfg.patience >= 1 && |ms| >= cfg.patience && AllFinite(ms)
    requires forall i :: 0 <= i < |ms| ==> !Improves(cfg, ms[i], best)
    ensures forall i :: 0 <= i < cfg.patience - 1 ==> !Run(cfg, State(Some(best), 0), ms).1[i]
    ensures Run(cfg, State(Some(best), 0), ms).1[cfg.patience - 1]
  {
    StreakWithoutImprovement(cfg, State(Some(best), 0), ms);
  }

  /** Values each of which improves on the one before, under any of the
      four comparisons, become the best one after the other and never stop. */
  lemma {:induction false} ImprovingRun(cfg: Config, ms: seq<Metric>)
    requires cfg.patience >= 1 && |ms| >= 1
    requires forall i :: 0 < i < |ms| ==> Improves(cfg, ms[i], ms[i - 1])
    ensures Run(cfg, Fresh, ms).0 == State(Some(ms[|ms| - 1]), 0)
    ensures forall i :: 0 <= i < |ms| ==> !Run(cfg, Fresh, ms).1[i]
    decreases |ms|
  {
    var init := ms[..|ms| - 1];
    if |init| > 0 {
      assert forall i :: 0 <= i < |init| ==> init[i] == ms[i];
      ImprovingRun(cfg, init);
    }
  }

  /** The early-stop scenario, under any of the four comparisons: k values
      each improving on the one before, followed by a plateau that repeats
      the last of them (a value that does not improve on itself), stop on the
      patience-th plateau value and not before, so exactly k + patience calls
      are made. */
  lemma PlateauStopsAfterPatience(cfg: Config, dec: seq<Metric>, plateau: seq<Metric>)
    requires cfg.patience >= 1 && |dec| >= 1
    requires forall i :: 0 < i < |dec| ==> Improves(cfg, dec[i], dec[i - 1])
    requires dec[|dec| - 1].Finite? && !Improves(cfg, dec[|dec| - 1], dec[|dec| - 1])
    requires |plateau| == cfg.patience && forall i :: 0 <= i < |plateau| ==> plateau[i] == dec[|dec| - 1]
    ensures forall i :: 0 <= i < |dec| + cfg.patience - 1 ==> !Run(cfg, Fresh, dec + plateau).1[i]
    ensures Run(cfg, Fresh, dec + plateau).1[|dec| + cfg.patience - 1]
  {
    ImprovingRun(cfg, dec);
    var mid := State(Some(dec[|dec| - 1]), 0);
    StreakWithoutImprovement(cfg, mid, plateau);
    RunAppend(cfg, Fresh, dec, plateau);
  }

  /** With absolute comparison and a margin of at least zero, in either
      mode, no value improves on itself, so a plateau is never an
      improvement. */
  lemma PlateauNeverImproves(cfg: Config, x: Metric)
    requires !cfg.percentage && cfg.minDelta >= 0.0
    ensures !Improves(cfg, x, x)
  {
  }

  /** In min mode with no margin and absolute comparison, the best after any
      non-empty stream of finite values is the smallest of them. */
  lemma {:induction false} BestIsRunningMinimum(cfg: Config, ms: seq<Metric>)
    requires cfg.mode == Min && cfg.minDelta == 0.0 && !cfg.percentage && cfg.patience != 0
    requires |ms| > 0 && AllFinite(ms)
    ensures Run(cfg, Fresh, ms).0.best.Some?
    ensures Run(cfg, Fresh, ms).0.best.value in ms
    ensures forall i :: 0 <= i < |ms| ==> Run(cfg, Fresh, ms).0.best.value.r <= ms[i].r
    decreases |ms|
  {
    var init := ms[..|ms| - 1];
    if |init| > 0 {
      assert forall i :: 0 <= i < |init| ==> init[i] == ms[i];
      BestIsRunningMinimum(cfg, init);
    }
  }
}
