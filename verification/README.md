# Early stopping and the epoch loop of the trvaep trainer, in Dafny

This project models the training orchestration of `model/train.py` in the
trvaep repository: the `EarlyStopping` decision state machine and the epoch
and log bookkeeping of `modelTrainer.train` and `modelTrainer.validate`.

- `metrics.dfy` (module `Metrics`): a Python float is `Metric = Finite(r) | NaN`.
  Sums propagate NaN, and every `<` or `>` against NaN is false. The running
  total `t = 0; t += x` is `Sum`.
- `early_stopping.dfy` (module `EarlyStopping`): the constructor `New` validates
  the mode string and yields a `Config` and a fresh `State` (`best` absent, no
  bad epochs). `Improves` is the comparison `_init_is_better` installs, in its
  four variants: absolute or percentage, min or max. `IsBetter` adds the
  `patience == 0` override. `Step(cfg, st, m)` is one call of `step` and
  returns the new state and the stop answer. `Run` feeds a stream of metrics
  to `Step`.
- `training.dfy` (module `Training`): each batch's `(loss, rec_loss, KL_loss)`
  triple is an input. Each epoch supplies its training batches and its
  validation batches.
  - `Average` forms an epoch mean and `Validate` is `validate`.
  - `Epoch` is one pass of the loop body. `Train` is the whole loop.
  - The logs are a `defaultdict(list)`: a map from the six keys to their
    per-epoch values, where a missing key reads as empty (`Get`).
  - `Train` returns either the logs, the number of epochs run and whether the
    stopper ended the loop, or the exception that escaped together with the
    logs as it left them.
- `wrappers.dfy` (module `Wrappers`): `Option` and `Result`.

Behaviour of the code that the model keeps exactly:

- The first call of `step` stores its metric as `best` before the NaN check.
  A NaN first value is therefore kept, and nothing can improve on it later.
- With `patience == 0` the constructor still validates the mode first. Every
  later `step` then answers "do not stop" and leaves the state alone.
- The epoch means divide by `iteration`, the zero-based index of the last
  batch, and not by the number of batches.
  - In `validate`, `iteration` is local. No batches raise `UnboundLocalError`;
    one batch raises `ZeroDivisionError`.
  - In `train`, `iteration` is a local of the whole method. An epoch without
    training batches therefore divides by the previous epoch's value.
- `self.logs['loss_train'].append(train_loss/iteration)` looks up the key
  before it divides. A raising division thus still leaves `loss_train`
  present in the logs (`Touch`).
- The six appends of an epoch happen before `es.step`, so the epoch that stops
  the loop is logged.
- `Train` takes an `Averaging` rule. `LastIndex` is the code as written.
  `BatchCount` is the corrected mean (see Findings). All loop properties are
  proved for both rules.

The code does not check the following, and neither does the model:

- The code does not reject a negative patience. Every call after the first
  then stops.
- A validation split with no batches is not rejected up front. It raises when
  the mean is taken.
- Nothing checks that an epoch mean divides by the batch count. It divides
  by the last batch index (see Findings).

## Model

| member | source | states |
|---|---|---|
| EarlyStopping.New | model/train.py:115-126 | construction fails with `ValueError("mode … is unknown!")` exactly when the mode is neither `min` nor `max`, whatever the patience; otherwise the configuration holds the arguments and the state is fresh |
| EarlyStopping.StepFirstCall | model/train.py:129-131 | the first call stores the metric (NaN included) as best, keeps the counter, answers "do not stop" |
| EarlyStopping.StepNaNAfterFirst | model/train.py:133-134 | after the first call a NaN answers "stop" and changes nothing |
| EarlyStopping.StepImprovement | model/train.py:136-145 | an improvement becomes the best and resets the counter to 0; the call stops only for a negative patience |
| EarlyStopping.StepNonImprovement | model/train.py:139-145 | a finite non-improvement keeps the best, adds exactly one to the counter, and stops iff the counter has reached the patience |
| EarlyStopping.NaNNeverImproves | model/train.py:150-161 | no comparator variant counts anything as better than NaN, or NaN as better than anything |
| EarlyStopping.AbsoluteThreshold | model/train.py:150-154 | absolute mode: better iff the value beats the best by strictly more than `min_delta` in the mode's direction |
| EarlyStopping.MaxMirrorsMin | model/train.py:151-154 | with absolute comparison, max mode on values equals min mode on their negations |
| EarlyStopping.PercentageExample | model/train.py:155-158 | min, percentage, `min_delta` 10, best 100: 91 is not better and 89 is |
| EarlyStopping.PercentageIsScaledAbsolute | model/train.py:155-161 | in either mode, the percentage comparison against a finite best b is the absolute comparison with margin b·`min_delta`/100 |
| EarlyStopping.NegativeBestPercentage | model/train.py:155-161 | the percentage margin takes the best's sign: min mode with best -100 and `min_delta` 10 counts the worse -95 as better, and max mode counts -105 as better |
| EarlyStopping.PatienceZeroAlwaysBetter | model/train.py:124-125 | with zero patience the replaced `is_better` accepts every pair, NaN included; like the source's replacement, it is never consulted, because `step` is replaced too |
| EarlyStopping.PatienceZeroNeverStops | model/train.py:124-126 | with zero patience no call in any stream stops and the state never changes |
| EarlyStopping.StreakWithoutImprovement | model/train.py:136-145 | from a recorded best, k finite non-improving calls keep the best, add k to the counter, and call i stops iff counter + i + 1 ≥ patience |
| EarlyStopping.NaNFirstNeverImproves | model/train.py:129-140 | after a NaN first value every finite call adds one to the counter and the best stays NaN; call i stops iff i ≥ patience |
| EarlyStopping.PatienceThCallStops | model/train.py:136-145 | after an improvement, the patience-th consecutive non-improving call is the first that stops |
| EarlyStopping.ImprovingRun | model/train.py:129-138 | with patience ≥ 1, under any of the four comparisons, values that each improve on the one before become the best in turn, keep the counter at 0 and never stop |
| EarlyStopping.PlateauStopsAfterPatience | model/train.py:128-145 | with patience ≥ 1, under any of the four comparisons, k values each improving on the one before, followed by a plateau at the last one (a finite value that does not improve on itself), stop on call k + patience and on no earlier call |
| EarlyStopping.PlateauNeverImproves | model/train.py:150-154 | with absolute comparison and `min_delta` ≥ 0, in either mode, no value improves on itself |
| EarlyStopping.BestIsRunningMinimum | model/train.py:128-138 | min mode, no margin, absolute, finite values: the best is one of the values seen and no larger than any of them |
| EarlyStopping.RunPrefix | model/train.py:128-145 | the answers to a prefix of a metric stream are the prefix of the answers |
| Metrics.SumFiniteIffAllFinite | model/train.py:67-69 | a running loss total is finite iff every batch value is, so one NaN batch poisons it |
| Training.Append | model/train.py:74-80 | appending under one key of the logs grows that key by exactly the value and leaves every other key as it reads |
| Training.Touch | model/train.py:74 | looking up a key of the `defaultdict` inserts it and changes no column |
| Training.Average | model/train.py:51-76 | as written, the mean raises `UnboundLocalError` when `iteration` was never bound, raises `ZeroDivisionError` when it is 0, and otherwise divides by the batch count minus one, except that an empty training pass after an earlier epoch divides by the previous epoch's `iteration`; the corrected rule divides by the count and raises only on no batches |
| Training.Validate | model/train.py:90-110 | `validate` fails iff there are at most one batch: none raises `UnboundLocalError`, one raises `ZeroDivisionError` |
| Training.NaNBatchPoisonsMean | model/train.py:67-76 | a computed epoch mean is NaN iff some batch loss is NaN |
| Training.LastIndexMeanIsNotAverage | model/train.py:106-110 | as written, two batches of loss 1 log a mean of 2, and one batch raises `ZeroDivisionError` |
| Training.BatchCountMeanWithin | model/train.py:106-110 | with the batch count as divisor, batch losses in [lo, hi] give an epoch mean in [lo, hi] |
| Training.TrainerStopper | model/train.py:39 | the stopper `train` builds is the constructor's result for mode `min`, `min_delta` 0, the given patience and absolute comparison |
| Training.Epoch | model/train.py:51-83 | one loop pass either raises with the partial logs of that epoch described, or keeps every epoch logged, advances `iteration`, and leaves the stopper state equal to running it on the logged validation losses |
| Training.Train | model/train.py:37-88 | logs start empty; a completed run has each of the six keys holding one epoch mean per epoch run, stops on the first "stop" answer to a logged validation loss or after all `n_epochs`; an escaping exception names the failing epoch and leaves the logs described, including `loss_train` as the only empty key when it is raised in the first epoch's training pass |
| Training.PlateauRunLength | model/train.py:50-83 | in a run that does not raise, with patience ≥ 1 and room for k + patience epochs, validation means falling for k epochs and then flat for `patience` epochs end the run early after exactly k + patience epochs |

## Findings

| source | as written | input that shows it | evidently intended | confidence | as-written member | corrected member |
|---|---|---|---|---|---|---|
| model/train.py:74-76 | the epoch means are the sums divided by `iteration`, the zero-based index of the last batch (also line 110) | a validation pass of two batches, each with loss 1.0, logs 2.0; a pass of one batch raises `ZeroDivisionError` | divide by the number of batches, so the mean lies between the smallest and the largest batch loss | high; not executed | Training.LastIndexMeanIsNotAverage | Training.BatchCountMeanWithin |

`Train`, `Epoch` and `Average` take the divisor rule as a parameter.
`LastIndex` reproduces the code; `BatchCount` is the corrected definition. All
loop properties hold for both.

## Left out

- PyTorch machinery is not modelled: `DataLoader` shuffling, `.to(device)`,
  seeding, the Adam optimizer, `backward()` and the `train()`/`eval()` mode
  toggles. Each batch's loss triple is an input.
- The model call, `MSE_kl`, and the dispatch between the conditioned and the
  unconditioned call are not modelled. Their code is not part of this model.
- `make_dataset`, `train_test_split` and `CustomDatasetFromAdata` are not
  modelled (model/train.py:30-35). Their code is not part of this model.
- Console printing is not modelled (model/train.py:70-73, 82, 85-87). Its
  guards `iteration % print_every` and `epoch % validation_itr` would raise
  `ZeroDivisionError` when those settings are 0. The model has no such
  settings.
- Floating point is not modelled: values are exact reals plus NaN, so rounding
  and infinities are absent.
- A mode argument that is not a string is not modelled. The source then fails
  with a `TypeError` while building the error message.
- Training.Train: requires a batch-loss input for each of the `n_epochs`
  epochs (`nEpochs <= |epochs|`). This is how the model represents the data
  loaders.
- Training.Train: the source returns nothing. It leaves the logs in
  `self.logs` and discards the stopper, so the model returns the logs and the
  epoch count instead.
