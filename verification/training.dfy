/** The epoch and log bookkeeping of `modelTrainer.train` and `validate` in
    model/train.py. Each batch's (total, reconstruction, KL) loss triple is
    an input; the model, the loss function, the optimizer and the data
    loaders are not modelled. */
module Training {
  import opened Wrappers
  import opened Metrics
  import opened EarlyStopping

  /** The losses `MSE_kl` reports for one batch. */
  datatype LossTriple = LossTriple(loss: Metric, rec: Metric, kl: Metric)

  /** What one epoch's loaders yield: the training batches, then the
      validation batches. */
  datatype EpochInput = EpochInput(train: seq<LossTriple>, valid: seq<LossTriple>)

  /** The Python exceptions the averaging can raise: `UnboundLocalError` when
      the loop variable `iteration` was never bound, `ZeroDivisionError` when
      it is 0. */
  datatype TrainError = UnboundIteration | ZeroDivision

  /** How an epoch mean is formed. `LastIndex` is the code as written: the
      sum divided by `iteration`, the zero-based index of the last batch.
      `BatchCount` divides by the number of batches. */
  datatype Averaging = LastIndex | BatchCount

  /** Which pass a logged value comes from. */
  datatype Split = TrainSplit | ValidSplit

  /** Which component of the loss triple a logged value is. */
  datatype Component = Total | Rec | KL

  /** A key of the logs; `Name` gives the string the source uses. */
  datatype Key = Key(split: Split, component: Component)

  function Name(k: Key): string {
    match k
    case Key(TrainSplit, Total) => "loss_train"
    case Key(TrainSplit, Rec) => "rec_loss_train"
    case Key(TrainSplit, KL) => "KL_loss_train"
    case Key(ValidSplit, Total) => "loss_valid"
    case Key(ValidSplit, Rec) => "rec_loss_valid"
    case Key(ValidSplit, KL) => "KL_loss_valid"
  }

  /** `defaultdict(list)` from metric key to its per-epoch values. */
  type Logs = map<Key, seq<Metric>>

  /** The result of a completed `train` call: the logs, how many epochs ran,
      and whether the early stopper ended the loop. */
  datatype TrainRun = TrainRun(logs: Logs, epochsRun: nat, earlyStopped: bool)

  /** An exception escaping `train`, with the logs as it left them. */
  datatype Abort = Abort(error: TrainError, logs: Logs)

  const LossValid: Key := Key(ValidSplit, Total)

  // ---- logs ---------------------------------------------------------------

  /** Reading a key of a `defaultdict(list)`: a missing key reads as empty. */
  function Get(logs: Logs, key: Key): seq<Metric> {
    if key in logs then logs[key] else []
  }

  /** `logs[key].append(v)`: only that key grows, by exactly `v`. */
  function Append(logs: Logs, key: Key, v: Metric): (r: Logs)
    ensures r.Keys == logs.Keys + {key}
    ensures Get(r, key) == Get(logs, key) + [v]
    ensures forall k :: k != key ==> Get(r, k) == Get(logs, k)
  {
    logs[key := Get(logs, key) + [v]]
  }

  function Component3(t: LossTriple, c: Component): Metric {
    match c
    case Total => t.loss
    case Rec => t.rec
    case KL => t.kl
  }

  /** The three appends of one pass's means, in the source's order. */
  function AppendTriple(logs: Logs, s: Split, t: LossTriple): (r: Logs)
    ensures r.Keys == logs.Keys + {Key(s, Total), Key(s, Rec), Key(s, KL)}
    ensures forall c :: Get(r, Key(s, c)) == Get(logs, Key(s, c)) + [Component3(t, c)]
    ensures forall k: Key :: k.split != s ==> Get(r, k) == Get(logs, k)
  {
    Append(Append(Append(logs, Key(s, Total), t.loss), Key(s, Rec), t.rec), Key(s, KL), t.kl)
  }

  /** Element `i` of a column, NaN when out of range. */
  function At(xs: seq<Metric>, i: int): Metric {
    if 0 <= i < |xs| then xs[i] else NaN
  }

  /** The triple logged at epoch `i` for one pass. */
  function Row(logs: Logs, s: Split, i: int): LossTriple {
    LossTriple(At(Get(logs, Key(s, Total)), i), At(Get(logs, Key(s, Rec)), i), At(Get(logs, Key(s, KL)), i))
  }

  // ---- averaging ----------------------------------------------------------

  /** One component of every batch triple of a pass, in batch order. */
  function Column(bs: seq<LossTriple>, c: Component): seq<Metric> {
    seq(|bs|, i requires 0 <= i < |bs| => Component3(bs[i], c))
  }

  /** The three running sums of an epoch, divided by `d`. */
  function SumsOver(bs: seq<LossTriple>, d: int): LossTriple
    requires d != 0
  {
    LossTriple(DivBy(Sum(Column(bs, Total)), d), DivBy(Sum(Column(bs, Rec)), d), DivBy(Sum(Column(bs, KL)), d))
  }

  /** The value of `iteration` after a pass over `bs`, given its value before:
      the last index when the pass had batches, otherwise unchanged. */
  function IterationAfter(bs: seq<LossTriple>, before: Option<nat>): Option<nat> {
    if |bs| > 0 then Some(|bs| - 1) else before
  }

  /** The epoch means of one pass over `bs`. Under `LastIndex` the divisor is
      `iteration` as it stands after the pass (`before` is its value on
      entry); under `BatchCount` it is the number of batches. */
  function Average(rule: Averaging, bs: seq<LossTriple>, before: Option<nat>): (r: Result<LossTriple, TrainError>)
    ensures rule == LastIndex ==>
      (r == Failure(UnboundIteration) <==> IterationAfter(bs, before).None?)
      && (r == Failure(ZeroDivision) <==> IterationAfter(bs, before) == Some(0))
    ensures rule == BatchCount ==> (r.Failure? <==> |bs| == 0) && (r.Failure? ==> r.error == ZeroDivision)
    ensures rule == LastIndex && |bs| >= 2 ==> r == Success(SumsOver(bs, |bs| - 1))
    ensures rule == LastIndex && |bs| == 0 && before.Some? && before.value > 0 ==> r == Success(SumsOver(bs, before.value))
    ensures rule == BatchCount && |bs| >= 1 ==> r == Success(SumsOver(bs, |bs|))
  {
    match rule
    case LastIndex =>
      var iteration := IterationAfter(bs, before);
      if iteration.None? then Failure(UnboundIteration)
      else if iteration.value == 0 then Failure(ZeroDivision)
      else Success(SumsOver(bs, iteration.value))
    case BatchCount =>
      if |bs| == 0 then Failure(ZeroDivision) else Success(SumsOver(bs, |bs|))
  }

  /** `validate`: a pass over the validation batches with a fresh, local
      `iteration`. As written, no batch raises `UnboundLocalError` and one
      batch raises `ZeroDivisionError`. */
  function Validate(rule: Averaging, bs: seq<LossTriple>): (r: Result<LossTriple, TrainError>)
    ensures rule == LastIndex ==> (r.Failure? <==> |bs| <= 1)
    ensures rule == LastIndex && |bs| == 0 ==> r == Failure(UnboundIteration)
    ensures rule == LastIndex && |bs| == 1 ==> r == Failure(ZeroDivision)
  {
    Average(rule, bs, None)
  }

  /** A NaN batch loss poisons the epoch mean, and only a NaN does. */
  lemma NaNBatchPoisonsMean(rule: Averaging, bs: seq<LossTriple>, before: Option<nat>)
    requires Average(rule, bs, before).Success?
    ensures Average(rule, bs, before).value.loss.NaN? <==> exists i :: 0 <= i < |bs| && bs[i].loss.NaN?
  {
    SumFiniteIffAllFinite(Column(bs, Total));
    if exists i :: 0 <= i < |bs| && bs[i].loss.NaN? {
      var i :| 0 <= i < |bs| && bs[i].loss.NaN?;
      assert Column(bs, Total)[i] == bs[i].loss;
    }
  }

  const UnitBatch: LossTriple := LossTriple(Finite(1.0), Finite(1.0), Finite(1.0))

  /** The code as written does not average: two batches of loss 1 give a
      logged mean of 2, and a single batch raises `ZeroDivisionError`. */
  lemma LastIndexMeanIsNotAverage()
    ensures Validate(LastIndex, [UnitBatch, UnitBatch]) == Success(LossTriple(Finite(2.0), Finite(2.0), Finite(2.0)))
    ensures Validate(LastIndex, [UnitBatch]) == Failure(ZeroDivision)
  {
    var bs := [UnitBatch, UnitBatch];
    assert Column(bs, Total) == [Finite(1.0), Finite(1.0)];
    assert Column(bs, Rec) == [Finite(1.0), Finite(1.0)];
    assert Column(bs, KL) == [Finite(1.0), Finite(1.0)];
    assert [Finite(1.0), Finite(1.0)][..1] == [Finite(1.0)];
    assert [Finite(1.0)][..0] == [];
  }

  /** Dividing by the batch count gives a true mean: if every batch loss lies
      in [lo, hi], so does the epoch mean. */
  lemma BatchCountMeanWithin(bs: seq<LossTriple>, lo: real, hi: real)
    requires |bs| > 0
    requires forall i :: 0 <= i < |bs| ==> bs[i].loss.Finite? && lo <= bs[i].loss.r <= hi
    ensures Validate(BatchCount, bs).Success?
    ensures Validate(BatchCount, bs).value.loss.Finite?
    ensures lo <= Validate(BatchCount, bs).value.loss.r <= hi
  {
    var xs := Column(bs, Total);
    SumWithin(xs, lo, hi);
    var n := |bs| as real;
    var total := Sum(xs).r;
    assert Validate(BatchCount, bs).value.loss.r == total / n;
    assert n * lo <= total <= n * hi;
    DivideBounds(total, n, lo, hi);
  }

  lemma DivideBounds(total: real, n: real, lo: real, hi: real)
    requires n > 0.0 && n * lo <= total <= n * hi
    ensures lo <= total / n <= hi
  {
    assert total / n * n == total;
  }

  /** The value of `train`'s `iteration` after the training passes of the
      given epochs: it is a local of `train`, so an epoch without batches
      keeps the previous epoch's value. */
  function IterationAfterEpochs(epochs: seq<EpochInput>): Option<nat>
    decreases |epochs|
  {
    if |epochs| == 0 then None
    else IterationAfter(epochs[|epochs| - 1].train, IterationAfterEpochs(epochs[..|epochs| - 1]))
  }

  /** The training means of the last epoch of a non-empty prefix of epochs. */
  function TrainAverage(rule: Averaging, epochs: seq<EpochInput>): Result<LossTriple, TrainError>
    requires |epochs| > 0
  {
    Average(rule, epochs[|epochs| - 1].train, IterationAfterEpochs(epochs[..|epochs| - 1]))
  }

  /** The early stopper `train` builds: `EarlyStopping(patience=...)`, with
      the defaults min mode, no margin and absolute comparison. */
  function TrainerStopper(patience: int): (r: (Config, State))
    ensures New("min", 0.0, patience, false) == Success(r)
  {
    (Config(Min, 0.0, patience, false), Fresh)
  }

  // ---- the epoch loop -----------------------------------------------------

  /** Epochs 0 .. n-1 of the training pass are logged: each epoch's means
      sit at index i of the three training columns. */
  ghost predicate TrainLogged(rule: Averaging, epochs: seq<EpochInput>, logs: Logs, n: nat)
    requires n <= |epochs|
  {
    forall i :: 0 <= i < n ==> TrainAverage(rule, epochs[..i + 1]) == Success(Row(logs, TrainSplit, i))
  }

  /** Epochs 0 .. n-1 of the validation pass are logged likewise. */
  ghost predicate ValidLogged(rule: Averaging, epochs: seq<EpochInput>, logs: Logs, n: nat)
    requires n <= |epochs|
  {
    forall i :: 0 <= i < n ==> Validate(rule, epochs[i].valid) == Success(Row(logs, ValidSplit, i))
  }

  ghost predicate EpochsLogged(rule: Averaging, epochs: seq<EpochInput>, logs: Logs, n: nat)
    requires n <= |epochs|
  {
    TrainLogged(rule, epochs, logs, n) && ValidLogged(rule, epochs, logs, n)
  }

  /** The answers the stopper gives to the logged validation losses. */
  function StopFlags(patience: int, logs: Logs): seq<bool> {
    Run(TrainerStopper(patience).0, Fresh, Get(logs, LossValid)).1
  }

  /** The shape of the logs after n fully logged epochs: no key before the
      first epoch, all six afterwards, each holding n values. */
  ghost predicate Shaped(logs: Logs, n: nat) {
    && (forall k :: k in logs <==> n > 0)
    && (forall k :: |Get(logs, k)| == n)
  }

  /** Appending one pass's means adds them as row n of that pass, where n
      is the common length of its columns. */
  lemma RowAfterAppend(logs: Logs, s: Split, t: LossTriple, n: nat, i: int)
    requires forall c :: |Get(logs, Key(s, c))| == n
    requires 0 <= i <= n
    ensures Row(AppendTriple(logs, s, t), s, i) == if i < n then Row(logs, s, i) else t
  {
    var r := AppendTriple(logs, s, t);
    assert Get(r, Key(s, Total)) == Get(logs, Key(s, Total)) + [t.loss];
    assert Get(r, Key(s, Rec)) == Get(logs, Key(s, Rec)) + [t.rec];
    assert Get(r, Key(s, KL)) == Get(logs, Key(s, KL)) + [t.kl];
  }

  /** Appending one pass's means leaves the other pass's rows alone. */
  lemma RowOtherSplit(logs: Logs, s: Split, t: LossTriple, other: Split, i: int)
    requires other != s
    ensures Row(AppendTriple(logs, s, t), other, i) == Row(logs, other, i)
  {
    var r := AppendTriple(logs, s, t);
    assert Get(r, Key(other, Total)) == Get(logs, Key(other, Total));
    assert Get(r, Key(other, Rec)) == Get(logs, Key(other, Rec));
    assert Get(r, Key(other, KL)) == Get(logs, Key(other, KL));
  }

  lemma TrainRowsExtend(rule: Averaging, epochs: seq<EpochInput>, logs: Logs, n: nat, t: LossTriple)
    requires n < |epochs| && TrainLogged(rule, epochs, logs, n)
    requires forall c :: |Get(logs, Key(TrainSplit, c))| == n
    requires TrainAverage(rule, epochs[..n + 1]) == Success(t)
    ensures TrainLogged(rule, epochs, AppendTriple(logs, TrainSplit, t), n + 1)
  {
    forall i | 0 <= i < n + 1 ensures TrainAverage(rule, epochs[..i + 1]) == Success(Row(AppendTriple(logs, TrainSplit, t), TrainSplit, i)) {
      RowAfterAppend(logs, TrainSplit, t, n, i);
    }
  }

  lemma ValidRowsExtend(rule: Averaging, epochs: seq<EpochInput>, logs: Logs, n: nat, v: LossTriple)
    requires n < |epochs| && ValidLogged(rule, epochs, logs, n)
    requires forall c :: |Get(logs, Key(ValidSplit, c))| == n
    requires Validate(rule, epochs[n].valid) == Success(v)
    ensures ValidLogged(rule, epochs, AppendTriple(logs, ValidSplit, v), n + 1)
  {
    forall i | 0 <= i < n + 1 ensures Validate(rule, epochs[i].valid) == Success(Row(AppendTriple(logs, ValidSplit, v), ValidSplit, i)) {
      RowAfterAppend(logs, ValidSplit, v, n, i);
    }
  }

  lemma TrainRowsKept(rule: Averaging, epochs: seq<EpochInput>, logs: Logs, n: nat, v: LossTriple)
    requires n <= |epochs| && TrainLogged(rule, epochs, logs, n)
    ensures TrainLogged(rule, epochs, AppendTriple(logs, ValidSplit, v), n)
  {
    forall i | 0 <= i < n ensures TrainAverage(rule, epochs[..i + 1]) == Success(Row(AppendTriple(logs, ValidSplit, v), TrainSplit, i)) {
      RowOtherSplit(logs, ValidSplit, v, TrainSplit, i);
    }
  }

  lemma ValidRowsKept(rule: Averaging, epochs: seq<EpochInput>, logs: Logs, n: nat, t: LossTriple)
    requires n <= |epochs| && ValidLogged(rule, epochs, logs, n)
    ensures ValidLogged(rule, epochs, AppendTriple(logs, TrainSplit, t), n)
  {
    forall i | 0 <= i < n ensures Validate(rule, epochs[i].valid) == Success(Row(AppendTriple(logs, TrainSplit, t), ValidSplit, i)) {
      RowOtherSplit(logs, TrainSplit, t, ValidSplit, i);
    }
  }

  /** Logging one more epoch's training and validation means keeps the logs
      shaped and every earlier epoch's row in place. */
  lemma LogEpoch(rule: Averaging, epochs: seq<EpochInput>, logs: Logs, n: nat, t: LossTriple, v: LossTriple)
    requires n < |epochs| && Shaped(logs, n) && EpochsLogged(rule, epochs, logs, n)
    requires TrainAverage(rule, epochs[..n + 1]) == Success(t)
    requires Validate(rule, epochs[n].valid) == Success(v)
    ensures Shaped(AppendTriple(AppendTriple(logs, TrainSplit, t), ValidSplit, v), n + 1)
    ensures EpochsLogged(rule, epochs, AppendTriple(AppendTriple(logs, TrainSplit, t), ValidSplit, v), n + 1)
    ensures Get(AppendTriple(AppendTriple(logs, TrainSplit, t), ValidSplit, v), LossValid) == Get(logs, LossValid) + [v.loss]
  {
    var logs1 := AppendTriple(logs, TrainSplit, t);
    var logs2 := AppendTriple(logs1, ValidSplit, v);
    forall k ensures k in logs2 && |Get(logs2, k)| == n + 1 {
      assert k == Key(k.split, k.component);
    }
    TrainRowsExtend(rule, epochs, logs, n, t);
    TrainRowsKept(rule, epochs, logs1, n + 1, v);
    ValidRowsKept(rule, epochs, logs, n, t);
    assert forall c :: |Get(logs1, Key(ValidSplit, c))| == n;
    ValidRowsExtend(rule, epochs, logs1, n, v);
  }

  /** Logging only the training means of epoch n (the validation pass then
      raises) leaves the validation columns and earlier rows as they were. */
  lemma LogTrainOnly(rule: Averaging, epochs: seq<EpochInput>, logs: Logs, n: nat, t: LossTriple)
    requires n < |epochs| && Shaped(logs, n) && EpochsLogged(rule, epochs, logs, n)
    requires TrainAverage(rule, epochs[..n + 1]) == Success(t)
    ensures forall c :: |Get(AppendTriple(logs, TrainSplit, t), Key(TrainSplit, c))| == n + 1
    ensures forall c :: Get(AppendTriple(logs, TrainSplit, t), Key(ValidSplit, c)) == Get(logs, Key(ValidSplit, c))
    ensures EpochsLogged(rule, epochs, AppendTriple(logs, TrainSplit, t), n)
    ensures Row(AppendTriple(logs, TrainSplit, t), TrainSplit, n) == t
  {
    TrainRowsExtend(rule, epochs, logs, n, t);
    ValidRowsKept(rule, epochs, logs, n, t);
    RowAfterAppend(logs, TrainSplit, t, n, n);
  }

  /** `logs[key]` on a `defaultdict(list)`: the lookup inserts a missing key
      with an empty list and changes no column. */
  function Touch(logs: Logs, key: Key): (r: Logs)
    ensures key in r && r.Keys == logs.Keys + {key}
    ensures forall k :: Get(r, k) == Get(logs, k)
  {
    logs[key := Get(logs, key)]
  }

  /** Touching a key keeps every logged row. */
  lemma TouchKeepsRows(rule: Averaging, epochs: seq<EpochInput>, logs: Logs, n: nat, key: Key)
    requires n <= |epochs| && Shaped(logs, n) && EpochsLogged(rule, epochs, logs, n)
    ensures forall k :: |Get(Touch(logs, key), k)| == n
    ensures EpochsLogged(rule, epochs, Touch(logs, key), n)
  {
    assert forall s, i :: Row(Touch(logs, key), s, i) == Row(logs, s, i);
  }

  /** What a completed `train` guarantees: every one of the six keys holds
      exactly one value per epoch run (no key at all when none ran), the
      values are the epoch means, the stopper said "stop" on no logged
      validation loss but possibly the last, and the loop ran all `nEpochs`
      epochs unless it said so. */
  ghost predicate Completed(rule: Averaging, nEpochs: int, patience: int, epochs: seq<EpochInput>, run: TrainRun) {
    var n := run.epochsRun;
    && n <= |epochs| && (n <= nEpochs || n == 0)
    && Shaped(run.logs, n)
    && EpochsLogged(rule, epochs, run.logs, n)
    && (forall i :: 0 <= i < n - 1 ==> !StopFlags(patience, run.logs)[i])
    && (run.earlyStopped <==> n > 0 && StopFlags(patience, run.logs)[n - 1])
    && (!run.earlyStopped ==> n == if nEpochs < 0 then 0 else nEpochs)
  }

  /** What an escaping exception guarantees: the failing epoch n is the first
      one missing from the validation columns; the epochs before it are
      logged and did not stop; either its training mean raised (the training
      columns then also hold n values, `loss_train` being present) or its
      training means were logged and its validation pass raised. */
  ghost predicate Aborted(rule: Averaging, nEpochs: int, patience: int, epochs: seq<EpochInput>, a: Abort) {
    var logs := a.logs;
    var n := |Get(logs, LossValid)|;
    && n < nEpochs && n < |epochs|
    && (forall c :: |Get(logs, Key(ValidSplit, c))| == n)
    && EpochsLogged(rule, epochs, logs, n)
    && (forall i :: 0 <= i < n ==> !StopFlags(patience, logs)[i])
    && (forall k :: k in logs && |Get(logs, k)| == 0 ==> k == Key(TrainSplit, Total))
    && if |Get(logs, Key(TrainSplit, Total))| == n then
         && Key(TrainSplit, Total) in logs
         && (forall c :: |Get(logs, Key(TrainSplit, c))| == n)
         && TrainAverage(rule, epochs[..n + 1]) == Failure(a.error)
       else
         && (forall c :: |Get(logs, Key(TrainSplit, c))| == n + 1)
         && TrainAverage(rule, epochs[..n + 1]) == Success(Row(logs, TrainSplit, n))
         && Validate(rule, epochs[n].valid) == Failure(a.error)
  }

  /** The loop invariant of `train` at the head of epoch n. */
  ghost predicate Looping(rule: Averaging, nEpochs: int, patience: int, epochs: seq<EpochInput>, logs: Logs, n: nat, stop: bool) {
    && n <= |epochs| && (n <= nEpochs || n == 0)
    && Shaped(logs, n)
    && EpochsLogged(rule, epochs, logs, n)
    && (forall i :: 0 <= i < n - 1 ==> !StopFlags(patience, logs)[i])
    && (stop <==> n > 0 && StopFlags(patience, logs)[n - 1])
  }

  lemma AbortInTrainPass(rule: Averaging, nEpochs: int, patience: int, epochs: seq<EpochInput>, logs: Logs, n: nat, err: TrainError)
    requires Looping(rule, nEpochs, patience, epochs, logs, n, false) && n < nEpochs && n < |epochs|
    requires TrainAverage(rule, epochs[..n + 1]) == Failure(err)
    ensures Aborted(rule, nEpochs, patience, epochs, Abort(err, Touch(logs, Key(TrainSplit, Total))))
  {
    TouchKeepsRows(rule, epochs, logs, n, Key(TrainSplit, Total));
    assert Get(Touch(logs, Key(TrainSplit, Total)), LossValid) == Get(logs, LossValid);
  }

  lemma AbortInValidPass(rule: Averaging, nEpochs: int, patience: int, epochs: seq<EpochInput>, logs: Logs, n: nat, t: LossTriple, err: TrainError)
    requires Looping(rule, nEpochs, patience, epochs, logs, n, false) && n < nEpochs && n < |epochs|
    requires TrainAverage(rule, epochs[..n + 1]) == Success(t)
    requires Validate(rule, epochs[n].valid) == Failure(err)
    ensures Aborted(rule, nEpochs, patience, epochs, Abort(err, AppendTriple(logs, TrainSplit, t)))
  {
    LogTrainOnly(rule, epochs, logs, n, t);
  }

  /** One epoch that logs both passes and consults the stopper. */
  lemma EpochLogged(rule: Averaging, nEpochs: int, patience: int, epochs: seq<EpochInput>, logs: Logs, n: nat, t: LossTriple, v: LossTriple)
    requires Looping(rule, nEpochs, patience, epochs, logs, n, false) && n < nEpochs && n < |epochs|
    requires TrainAverage(rule, epochs[..n + 1]) == Success(t)
    requires Validate(rule, epochs[n].valid) == Success(v)
    ensures var logs' := AppendTriple(AppendTriple(logs, TrainSplit, t), ValidSplit, v);
      && Get(logs', LossValid) == Get(logs, LossValid) + [v.loss]
      && Looping(rule, nEpochs, patience, epochs, logs', n + 1,
                 Step(TrainerStopper(patience).0, Run(TrainerStopper(patience).0, Fresh, Get(logs, LossValid)).0, v.loss).1)
  {
    LogEpoch(rule, epochs, logs, n, t, v);
    RunSnoc(TrainerStopper(patience).0, Fresh, Get(logs, LossValid), v.loss);
  }

  /** How one pass of the loop body ends: the loop carries on with the new
      logs, `iteration`, stopper state and answer, or an exception escapes. */
  datatype EpochOutcome = Next(logs: Logs, iteration: Option<nat>, es: State, stop: bool) | Raised(abort: Abort)

  /** The body of `train`'s epoch loop for epoch n: the training pass and its
      three appends, `validate` and its three appends, then `es.step` on the
      validation loss. */
  function Epoch(rule: Averaging, nEpochs: int, patience: int, epochs: seq<EpochInput>,
                 logs: Logs, n: nat, iteration: Option<nat>, es: State): (o: EpochOutcome)
    requires Looping(rule, nEpochs, patience, epochs, logs, n, false) && n < nEpochs && n < |epochs|
    requires iteration == IterationAfterEpochs(epochs[..n])
    requires es == Run(TrainerStopper(patience).0, Fresh, Get(logs, LossValid)).0
    ensures o.Raised? ==> Aborted(rule, nEpochs, patience, epochs, o.abort)
    ensures o.Next? ==>
      && Looping(rule, nEpochs, patience, epochs, o.logs, n + 1, o.stop)
      && o.iteration == IterationAfterEpochs(epochs[..n + 1])
      && o.es == Run(TrainerStopper(patience).0, Fresh, Get(o.logs, LossValid)).0
  {
    assert epochs[..n + 1][..n] == epochs[..n];
    var e := epochs[n];
    var trainMeans := Average(rule, e.train, iteration);
    if trainMeans.Failure? then
      // `self.logs['loss_train']` is looked up, inserting the key, before
      // the division raises.
      AbortInTrainPass(rule, nEpochs, patience, epochs, logs, n, trainMeans.error);
      Raised(Abort(trainMeans.error, Touch(logs, Key(TrainSplit, Total))))
    else
      var validMeans := Validate(rule, e.valid);
      if validMeans.Failure? then
        AbortInValidPass(rule, nEpochs, patience, epochs, logs, n, trainMeans.value, validMeans.error);
        Raised(Abort(validMeans.error, AppendTriple(logs, TrainSplit, trainMeans.value)))
      else
        var logs' := AppendTriple(AppendTriple(logs, TrainSplit, trainMeans.value), ValidSplit, validMeans.value);
        EpochLogged(rule, nEpochs, patience, epochs, logs, n, trainMeans.value, validMeans.value);
        RunSnoc(TrainerStopper(patience).0, Fresh, Get(logs, LossValid), validMeans.value.loss);
        var next := Step(TrainerStopper(patience).0, es, validMeans.value.loss);
        Next(logs', IterationAfter(e.train, iteration), next.0, next.1)
  }

  /** Where a loop that breaks on the first true answer ends, given the
      answers it saw agree with a reference stream whose first true answer
      is at index k - 1. */
  lemma FirstStopIndex(seen: seq<bool>, reference: seq<bool>, k: nat, stopped: bool, nEpochs: int)
    requires 1 <= k <= |reference| && k <= nEpochs
    requires forall i :: 0 <= i < k - 1 ==> !reference[i]
    requires reference[k - 1]
    requires var m := if |seen| < k then |seen| else k; seen[..m] == reference[..m]
    requires forall i :: 0 <= i < |seen| - 1 ==> !seen[i]
    requires stopped <==> |seen| > 0 && seen[|seen| - 1]
    requires !stopped ==> |seen| == nEpochs
    ensures |seen| == k && stopped
  {
    var m := if |seen| < k then |seen| else k;
    assert forall i :: 0 <= i < m ==> seen[i] == reference[i] by {
      forall i | 0 <= i < m ensures seen[i] == reference[i] {
        assert seen[..m][i] == reference[..m][i];
      }
    }
  }

  /** Index i of the logged validation losses is epoch i's validation mean. */
  lemma LoggedValidLoss(rule: Averaging, epochs: seq<EpochInput>, logs: Logs, n: nat, i: nat)
    requires n <= |epochs| && ValidLogged(rule, epochs, logs, n)
    requires |Get(logs, LossValid)| == n && i < n
    ensures Validate(rule, epochs[i].valid).Success?
    ensures Get(logs, LossValid)[i] == Validate(rule, epochs[i].valid).value.loss
  {
    assert Validate(rule, epochs[i].valid) == Success(Row(logs, ValidSplit, i));
  }

  /** End to end: when the validation means of the first k + patience
      epochs fall strictly for k epochs and then repeat the last of them for
      `patience` epochs, and `nEpochs` leaves room for all of them, a
      completed run stops early after exactly k + patience epochs. */
  lemma PlateauRunLength(rule: Averaging, nEpochs: int, patience: int, epochs: seq<EpochInput>,
                         run: TrainRun, dec: seq<Metric>, plateau: seq<Metric>)
    requires nEpochs <= |epochs| && Completed(rule, nEpochs, patience, epochs, run)
    requires patience >= 1 && |dec| >= 1 && AllFinite(dec)
    requires forall i :: 0 < i < |dec| ==> dec[i].r < dec[i - 1].r
    requires |plateau| == patience && forall i :: 0 <= i < |plateau| ==> plateau[i] == dec[|dec| - 1]
    requires |dec| + patience <= nEpochs
    requires forall i :: 0 <= i < |dec| + patience ==>
      Validate(rule, epochs[i].valid).Success? && Validate(rule, epochs[i].valid).value.loss == (dec + plateau)[i]
    ensures run.epochsRun == |dec| + patience && run.earlyStopped
  {
    var cfg := TrainerStopper(patience).0;
    var k := |dec| + patience;
    var ms := dec + plateau;
    var n := run.epochsRun;
    var logged := Get(run.logs, LossValid);
    assert |logged| == n;
    assert forall i :: 0 < i < |dec| ==> Improves(cfg, dec[i], dec[i - 1]);
    PlateauNeverImproves(cfg, dec[|dec| - 1]);
    PlateauStopsAfterPatience(cfg, dec, plateau);
    var m := if n < k then n else k;
    forall i | 0 <= i < m ensures logged[i] == ms[i] {
      LoggedValidLoss(rule, epochs, run.logs, n, i);
    }
    assert logged[..m] == ms[..m];
    RunPrefix(cfg, Fresh, logged, m);
    RunPrefix(cfg, Fresh, ms, m);
    FirstStopIndex(StopFlags(patience, run.logs), Run(cfg, Fresh, ms).1, k, run.earlyStopped, nEpochs);
  }

  /** `train(n_epochs, batch_size, early_patience)` over the given per-epoch
      batch losses. The logs start empty (`self.logs` is reset); the result
      is a completed run or the exception that escaped, with the logs as it
      left them. */
  method Train(rule: Averaging, nEpochs: int, patience: int, epochs: seq<EpochInput>)
    returns (r: Result<TrainRun, Abort>)
    requires nEpochs <= |epochs|
    ensures r.Success? ==> Completed(rule, nEpochs, patience, epochs, r.value)
    ensures r.Failure? ==> Aborted(rule, nEpochs, patience, epochs, r.error)
  {
    var es := TrainerStopper(patience).1;
    var logs: Logs := map[];
    var iteration: Option<nat> := None;
    var n := 0;
    var stop := false;
    while n < nEpochs && !stop
      invariant Looping(rule, nEpochs, patience, epochs, logs, n, stop)
      invariant iteration == IterationAfterEpochs(epochs[..n])
      invariant es == Run(TrainerStopper(patience).0, Fresh, Get(logs, LossValid)).0
    {
      var o := Epoch(rule, nEpochs, patience, epochs, logs, n, iteration, es);
      if o.Raised? {
        return Failure(o.abort);
      }
      logs, iteration, es, stop := o.logs, o.iteration, o.es, o.stop;
      n := n + 1;
    }
    return Success(TrainRun(logs, n, stop));
  }
}
