# Fine-tuning loop of a BERT text classifier, modelled in Dafny

`train_classification.py` fine-tunes a pretrained encoder for emotion or
sentiment classification. This project models the parts of that script that
are plain bookkeeping and proves properties about them:

- **The batch collator** `ClassificationBatchFunction` (module `Collator`).
  It wraps every token sequence as `[cls] + t + [sep]` and right-pads it with
  the pad id up to `max_len`, or keeps its last `max_len` ids. It derives the
  mask from the padded rows and passes the labels through in batch order.
- **The training loop** `train` (modules `Accumulation`, `Checkpoint`,
  `Training`). It keeps these counters:
  - the gradient-accumulation counter and `global_step`;
  - the running loss/accuracy/F1 totals and the periodic log deltas;
  - the per-epoch means;
  - the best validation loss, with its checkpoint and accuracy.
- **The validation pass** `evaluate` (module `Evaluation`). It gathers labels
  and predictions in loader order and averages the per-batch losses.

The model network, its forward pass, the optimizer and scheduler, and the
sklearn classification report are outside the model. A training micro-batch
is the triple `Measure(loss, acc, f1)` it reports. A validation batch is its
labels, its predictions and its loss. An epoch also carries the corpus
accuracy the classification report gives for it.

The model follows the code as written. The errors Python raises are modelled
as `Result` values:
- `ZeroDivisionError` for a gradient-accumulation factor of zero (line 128) and
  for `logging_step == 0` (line 206);
- `UnboundLocalError` for `step` (first training loader empty), `val_step`
  (validation loader empty, as the code at lines 282-320 reads it; the
  classification report at lines 305-308 is external code and may raise
  first, see "## Left out") and `best_val_acc` (no epoch's loss below `1e+9`);
- `ValueError` for an empty batch or for rows of unequal length in the collator.

The code differs from what its own comment at line 41 and the usual 0/1
attention-mask convention suggest, and from what a reader may expect elsewhere;
the model follows the code:
- **Mask values.** Padding is marked with `pad_idx`, not with 0, so the mask is
  equal to the 0/1 padding mask exactly when `pad_idx == 0` or the row holds
  no pad id (`Collator.MaskIsBinaryIff`); with pad id 1, for example, every
  position of a padded row is 1. `cls` and `sep`
  default to the pad id, and when they do they are masked like padding
  (`Collator.DefaultMarkersAreMasked`).
- **Truncation.** It happens after the markers are added. A long sample loses
  `cls` and keeps `sep` (`Collator.LongRow`).
- **Unused batch maximum.** The per-batch maximum length (line 42) is computed
  but never used. For `max_len >= 1` rows always have length `max_len`. With
  `max_len == 0` the slice `[-0:]` keeps whole rows
  (`Collator.ZeroCapKeepsWholeSamples`), and a negative `max_len` drops the
  first |`max_len`| ids of every row, or all of a shorter one (`Collator.Padded`).
- **Log frequency.** The logging test runs on every micro-batch. With G > 1 and
  `(global_step + 1) % logging_step == 0`, one log line is written for each
  micro-batch accumulated into that step: G of them, or more when the step
  also applies gradient carried over from the previous epoch. With G = 2, `logging_step = 1` and four
  equal micro-batches, each of the four lines reports half a micro-batch's
  figures (`Accumulation.AccumulationLogsHalfFigures`).
- **Epoch means.** The per-epoch training figures divide the G-scaled totals by
  the number of micro-batches. With G > 1 they are the true mean over G
  (`Training.EpochMeanFigures`).
- **Gradient carried over.** The gradient of the micro-batches after the last
  optimizer step of an epoch is not cleared. It is applied by the first step of
  the next epoch (`Training.LeftoverGradientCarries`).
- **Returned training figures.** The training loss and accuracy that `train`
  returns are always 0, because they are reset after the last epoch.

## Model

| member | source | states |
|---|---|---|
| Collator.NewBatchFunction | train_classification.py:32-36 | a boundary marker that is not given takes the pad id; a given one is kept |
| Collator.SliceFrom | train_classification.py:55 | Python `s[start:]` for any integer start: the result is a suffix of `s` of the clamped length, with a negative start counting from the end |
| Collator.Padded | train_classification.py:50-56 | a short sample is kept as a prefix, then pad ids up to `max_len`; otherwise the last `max_len` ids are kept; a zero cap keeps the whole sample; a negative cap drops that many leading ids |
| Collator.Mask | train_classification.py:45-46 | the mask has the row's shape, with `pad_idx` where the token is the pad id and 1 elsewhere |
| Collator.BinaryMask | train_classification.py:45-46 | reference 0/1 mask: 0 exactly on pad positions |
| Collator.Rows | train_classification.py:43-44 | one wrapped and padded row per sample, in batch order |
| Collator.Collate | train_classification.py:38-48 | succeeds iff the batch is non-empty and the rows are rectangular (for `max_len >= 1`, iff non-empty); fails only with ValueError; on success rows, masks and labels align with the samples, rows have length `max_len`, and each mask is derived from its row |
| Collator.ShortRow | train_classification.py:44-53 | a sample at least two ids short of the cap becomes `[cls] + t + [sep]` followed by pad ids up to the cap |
| Collator.LongRow | train_classification.py:44-56 | a sample that fills the cap keeps the last `max_len` ids of the wrapped sequence, ends with `sep`, and loses `cls` when it overflows |
| Collator.ZeroCapKeepsWholeSamples | train_classification.py:43-55 | with `max_len == 0` rows keep their whole length, and collation succeeds iff all samples have equal length |
| Collator.MaskIsBinaryIff | train_classification.py:45-46 | the mask equals the 0/1 mask iff the pad id is 0 or the row holds no pad id |
| Collator.DefaultMarkersAreMasked | train_classification.py:35-46 | with `cls`/`sep` left unset, the two marker positions of a short row are masked with the pad id |
| Collator.WorkedExample | train_classification.py:38-56 | pad 0, cls 1, sep 2, cap 6 on samples `[5,6,7]`, `[8,9]` give tokens `[[1,5,6,7,2,0],[1,8,9,2,0,0]]`, masks `[[1,1,1,1,1,0],[1,1,1,1,0,0]]`, labels `[0,1]` |
| Collator.IntList.constructor | train_classification.py:50 | the list object holds the given items |
| Collator.Pad | train_classification.py:50-56 | the returned list holds `Padded` of the argument; a short list is extended in place and returned itself; otherwise a fresh list is returned and the argument is unchanged |
| Accumulation.Contribution | train_classification.py:190-194 | with G > 1 each figure is divided by G (G times the contribution is the micro-batch's figure); otherwise it is unchanged |
| Accumulation.AccumulationCounter | train_classification.py:222-233 | over n micro-batches with G >= 1: `global_step` grows by n / G; the first step applies the carried-over gradient plus G micro-batches, every other step exactly G; n % G stay pending (or all of them plus the carry when n < G) |
| Accumulation.GradientConserved | train_classification.py:200-233 | for any non-zero G, the gradients applied plus those pending equal the carried-over ones plus one per micro-batch, and each optimizer step appends one entry |
| Accumulation.RunningTotal | train_classification.py:190-204 | the running totals are the micro-batch sums, divided by G when G > 1 |
| Accumulation.LoggingSnapshot | train_classification.py:206-214 | with G = 1 and any non-zero `logging_step`, the logging snapshot is the running total at the last logged micro-batch |
| Accumulation.LoggedDeltaIsWindowMean | train_classification.py:206-214 | with G = 1 and any non-zero `logging_step` L, a logged delta is the total of the last \|L\| micro-batches divided by L: their mean, negated when L < 0 |
| Accumulation.AccumulationLogsHalfFigures | train_classification.py:190-233 | G = 2, `logging_step` 1, four equal micro-batches: 2 optimizer steps of 2 micro-batches each, and four log lines numbered 1, 1, 2, 2, each with half a micro-batch's figures |
| Checkpoint.NextBest | train_classification.py:256-263 | the new best is the smaller of the two and changes iff the epoch's loss is strictly lower |
| Checkpoint.Improvements | train_classification.py:256-263 | the checkpointed epochs are indices of the epoch list |
| Checkpoint.BestIsMinimum | train_classification.py:158-263 | the best loss is the minimum of 1e9 and every epoch's loss, and is one of them |
| Checkpoint.BestNonIncreasing | train_classification.py:256-263 | the best loss never increases from one epoch to a later one |
| Checkpoint.ImprovementsExact | train_classification.py:256-263 | epoch k is checkpointed iff its loss is strictly below the best before it; the checkpoints come in increasing order |
| Checkpoint.BestChangesOnlyAtImprovements | train_classification.py:256-263 | the best loss changes at epoch k iff a checkpoint is written there |
| Checkpoint.NoImprovementIff | train_classification.py:158-263 | no checkpoint is ever written iff no loss is below the initial value, and then the best stays at that value |
| Checkpoint.BestIsLastImprovement | train_classification.py:256-263 | the best loss is the loss of the last checkpointed epoch |
| Checkpoint.LastImprovementIsFirstMinimum | train_classification.py:158-263 | the last checkpointed epoch holds the minimum loss, is the first epoch that reaches it, and that minimum is below 1e9 |
| Checkpoint.ImprovementSetsBest | train_classification.py:256-263 | a checkpointed epoch's loss is below the previous best and becomes the best |
| Checkpoint.CheckpointLossesDecrease | train_classification.py:158-263 | each checkpoint holds a strictly smaller loss than the one before, and the first is below 1e9 |
| Evaluation.Evaluate | train_classification.py:282-323 | an empty loader leaves `val_step` unbound; otherwise the mean of the per-batch losses and all labels and predictions gathered in loader order |
| Evaluation.GatheredInOrder | train_classification.py:286-300 | the labels (and predictions) of two runs of batches concatenate |
| Evaluation.GatheredAligned | train_classification.py:286-300 | with one prediction per label in every batch, the gathered lists have equal length |
| Evaluation.LossSumBounds | train_classification.py:302 | the summed loss lies between n·lo and n·hi when every batch loss is in [lo, hi] |
| Evaluation.MeanLossBounds | train_classification.py:302-321 | the validation loss lies between the smallest and the largest batch loss |
| Training.ErrorPersists | train_classification.py:162-265 | once an epoch fails, the whole run fails with that same error |
| Training.MicroBatches | train_classification.py:164-233 | the inner loop fails with ZeroDivisionError iff `logging_step` is 0 and there is a micro-batch; otherwise its counters, totals, logs and applied steps are those of `Accumulation.EpochAfter`, and `step` is the last index (or the previous epoch's) |
| Training.TrainEpoch | train_classification.py:162-265 | one epoch equals `Training.EpochStep`, including the `step`/`val_step` errors and the checkpoint decision |
| Training.Train | train_classification.py:128-273 | the loops return exactly `Training.Run` (the fold `Training.RunAfter`): a zero G fails before training, the first error stops the run, and `best_val_acc` must be bound at the end |
| Training.FloorDiv | train_classification.py:128 | Python floor division: the largest q with b·q <= a (b > 0), the smallest with b·q >= a (b < 0) |
| Training.TotalSteps | train_classification.py:128 | `t_total` fails iff G is 0 (ZeroDivisionError), and is `n / G * epochs` for G >= 1 |
| Training.RunAfterSucceedsIff | train_classification.py:162-265 | every epoch runs to its end iff the first training loader is non-empty, `logging_step` is non-zero and every validation loader is non-empty |
| Training.RunRecord | train_classification.py:240-263 | after the epochs, every epoch is reported with its own validation loss and accuracy, the best loss is the running minimum, checkpoints are exactly at strict improvements, and the kept accuracy is the last checkpoint's |
| Training.BestOfRecord | train_classification.py:256-263 | once a checkpoint exists, the best loss is the minimum epoch loss, below 1e9, and the kept accuracy is that of the first epoch reaching it |
| Training.RunSucceedsIff | train_classification.py:128-273 | `train` returns iff G != 0, every epoch runs, and some epoch's validation loss is below 1e9 |
| Training.RunOutcome | train_classification.py:256-273 | the returned best loss is the minimum epoch loss, returned with the accuracy of the first epoch reaching it (ties keep the earlier checkpoint); the returned training loss and accuracy are 0 |
| Training.RunGlobalSteps | train_classification.py:200-233 | over the run, applied plus pending gradients equal the micro-batches seen, `global_step` counts the optimizer steps, and with G >= 1 it is the sum of n / G over the epochs |
| Training.ScheduleHorizonMatchesSteps | train_classification.py:128-233 | with loaders of a fixed length the optimizer takes exactly the `t_total` steps the schedule was built for |
| Training.EpochMeanFigures | train_classification.py:190-237 | the epoch's training figures are the micro-batch sums over the micro-batch count, and additionally over G when G > 1 |
| Training.LeftoverGradientCarries | train_classification.py:222-233 | two epochs of three micro-batches with G = 2 apply gradients of 2 and then 3 micro-batches, leaving one pending |

## Left out

- The model network and its forward pass, backward propagation, the optimizer, gradient-norm clipping and mixed-precision scaling are outside the model (lines 177-178, 196-200, 223-231). Only the counters and figures they feed are modelled.
- The warm-up/linear-decay learning-rate schedule uses floating point (`int(t_total * warmup_percent)`) and external code. Only `t_total` is modelled (`Training.TotalSteps`).
- The sklearn classification report and confusion matrix are outside the model. Per-batch accuracy and macro-F1, and the validation accuracy, are inputs. With an empty validation loader the report call, which is external code, may already raise before `val_step` is read; the model reports the `val_step` error of the code shown.
- Loss values are mathematical reals. NaN, infinities and float rounding are not modelled.
- Logger text, tensorboard scalars, CSV results, `torch.save` of the model and arguments, argument parsing, seeding, device placement and data loading are I/O; they are left out. Saving a checkpoint is recorded as the epoch index in `checkpoints`.
- Training.Train: on an error it returns only the error and drops the records (logs, checkpoints) of the epochs before it, which the Python process would already have written.
- Accumulation.AccumulationCounter, Training.ScheduleHorizonMatchesSteps: stated for G >= 1 only. A negative G is modelled in `EpochAfter`, `TotalSteps` and `Train`, but the step-count lemmas do not cover it.
- Accumulation.LoggingSnapshot, Accumulation.LoggedDeltaIsWindowMean: stated for G = 1, where a log fires once per step (for every non-zero `logging_step`, negative ones included). For G > 1 the repeated log lines are shown by `Accumulation.AccumulationLogsHalfFigures`.
- Collator.Collate: the label vector and the rows are integer sequences; tensor dtypes and devices are not modelled.
