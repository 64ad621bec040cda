/** The integer and accumulator bookkeeping of `train`: epochs of
    micro-batches, the optimizer-step counter, the periodic log lines, the
    per-epoch means, validation and the best-checkpoint rule, with the
    errors the Python code raises on degenerate configurations. The model,
    the optimizer, the scheduler and sklearn are abstract inputs. */
module Training {
  import opened Errors
  import opened Accumulation
  import opened Checkpoint
  import opened Evaluation

  /** What one epoch feeds the loop: the figures of its training
      micro-batches, its validation batches, and the corpus-level accuracy
      that the classification report (not modelled) gives for them. */
  datatype Epoch = Epoch(micro: seq<Measure>, dev: seq<EvalBatch>, devAcc: real)

  /** The figures logged at the end of an epoch, with the printed step. */
  datatype EpochReport = EpochReport(step: int, train: Measure, valLoss: real, valAcc: real)

  /** The variables of `train` between epochs. `lastStep` is Python's loop
      variable `step`, which outlives its loop; `checkpoints` lists the
      epochs at which the best model and the arguments are saved. */
  datatype RunState = RunState(globalStep: nat, pending: nat, lastStep: Option<nat>,
                               logs: seq<LogRecord>, applied: seq<nat>,
                               reports: seq<EpochReport>,
                               best: real, bestAcc: Option<real>, checkpoints: seq<nat>)

  /** What `train` returns, and what it logged and saved on the way. */
  datatype TrainOutcome = TrainOutcome(globalStep: nat, trainLoss: real, trainAcc: real,
                                       bestValLoss: real, bestValAcc: real,
                                       logs: seq<LogRecord>, applied: seq<nat>,
                                       reports: seq<EpochReport>, checkpoints: seq<nat>)

  const Start: RunState := RunState(0, 0, None, [], [], [], InitialBest, None, [])

  /** One epoch of the outer loop. */
  function EpochStep(st: RunState, ep: Epoch, gradAccu: int, loggingStep: int): Result<RunState>
    requires gradAccu != 0
  {
    if loggingStep == 0 && |ep.micro| > 0 then Err(ZeroDivisionError)
    else
      var es := EpochAfter(st.globalStep, st.pending, ep.micro, gradAccu, loggingStep);
      var lastStep: Option<nat> := if |ep.micro| > 0 then Some(|ep.micro| - 1) else st.lastStep;
      if lastStep.None? then Err(UnboundLocalError("step"))
      else if |ep.dev| == 0 then Err(UnboundLocalError("val_step"))
      else
        var mean := Over(es.train, (lastStep.value + 1) as real);
        var v := MeanLoss(ep.dev);
        var improved := v < st.best;
        Ok(RunState(es.globalStep, es.pending, lastStep,
                    st.logs + es.logs, st.applied + es.applied,
                    st.reports + [EpochReport(es.globalStep + 1, mean, v, ep.devAcc)],
                    NextBest(st.best, v),
                    if improved then Some(ep.devAcc) else st.bestAcc,
                    if improved then st.checkpoints + [|st.reports|] else st.checkpoints))
  }

  /** The state after the given epochs, or the first error raised. */
  function RunAfter(epochs: seq<Epoch>, gradAccu: int, loggingStep: int): Result<RunState>
    requires gradAccu != 0
    decreases |epochs|
  {
    if |epochs| == 0 then Ok(Start)
    else match RunAfter(epochs[..|epochs| - 1], gradAccu, loggingStep)
      case Err(f) => Err(f)
      case Ok(st) => EpochStep(st, epochs[|epochs| - 1], gradAccu, loggingStep)
  }

  /** The whole of `train`: `t_total` divides by G before anything runs,
      and `best_val_acc` is unbound at the end unless some epoch improved.
      The returned training loss and accuracy are the values reset after
      the last epoch. */
  function Run(epochs: seq<Epoch>, gradAccu: int, loggingStep: int): Result<TrainOutcome>
  {
    if gradAccu == 0 then Err(ZeroDivisionError)
    else match RunAfter(epochs, gradAccu, loggingStep)
      case Err(f) => Err(f)
      case Ok(st) =>
        if st.bestAcc.None? then Err(UnboundLocalError("best_val_acc"))
        else Ok(TrainOutcome(st.globalStep, 0.0, 0.0, st.best, st.bestAcc.value,
                             st.logs, st.applied, st.reports, st.checkpoints))
  }

  /** Once an epoch fails, the run fails with the same error. */
  lemma {:induction false} ErrorPersists(epochs: seq<Epoch>, k: nat, gradAccu: int, loggingStep: int)
    requires gradAccu != 0 && k <= |epochs|
    requires RunAfter(epochs[..k], gradAccu, loggingStep).Err?
    ensures RunAfter(epochs, gradAccu, loggingStep) == RunAfter(epochs[..k], gradAccu, loggingStep)
    decreases |epochs|
  {
    if k < |epochs| {
      var n := |epochs| - 1;
      assert epochs[..n][..k] == epochs[..k];
      ErrorPersists(epochs[..n], k, gradAccu, loggingStep);
    } else {
      assert epochs[..k] == epochs;
    }
  }

  /** The configurations under which every epoch runs to its end: the
      first epoch has a micro-batch (so `step` is bound), logging_step is
      non-zero (it is read at the first micro-batch), and every validation
      loader has a batch (so `val_step` is bound). */
  predicate EpochsRun(epochs: seq<Epoch>, loggingStep: int)
  {
    |epochs| == 0 ||
    (|epochs[0].micro| > 0 && loggingStep != 0 && forall k :: 0 <= k < |epochs| ==> |epochs[k].dev| > 0)
  }

  /** The validation losses of the reported epochs, in order. */
  function ValLosses(rs: seq<EpochReport>): (r: seq<real>)
    ensures |r| == |rs|
    ensures forall i :: 0 <= i < |rs| ==> r[i] == rs[i].valLoss
    decreases |rs|
  {
    if |rs| == 0 then [] else ValLosses(rs[..|rs| - 1]) + [rs[|rs| - 1].valLoss]
  }

  /** Micro-batches over all epochs. */
  function MicroCount(epochs: seq<Epoch>): nat
    decreases |epochs|
  {
    if |epochs| == 0 then 0 else MicroCount(epochs[..|epochs| - 1]) + |epochs[|epochs| - 1].micro|
  }

  /** Optimizer steps the epochs should take with G >= 1: n / G per epoch of n micro-batches. */
  function StepsTaken(epochs: seq<Epoch>, gradAccu: int): nat
    requires gradAccu >= 1
    decreases |epochs|
  {
    if |epochs| == 0 then 0 else StepsTaken(epochs[..|epochs| - 1], gradAccu) + |epochs[|epochs| - 1].micro| / gradAccu
  }

  /** Python's floor division `a // b`. */
  function FloorDiv(a: int, b: int): (q: int)
    requires b != 0
    ensures b > 0 ==> b * q <= a < b * q + b
    ensures b < 0 ==> b * q + b < a <= b * q
  {
    if b > 0 then a / b
    else if a % b == 0 then a / b
    else a / b - 1
  }

  /** `t_total`, the horizon given to the learning-rate schedule. */
  function TotalSteps(loaderLen: nat, gradAccu: int, epochs: int): (r: Result<int>)
    ensures r.Err? <==> gradAccu == 0
    ensures r.Err? ==> r.failure == ZeroDivisionError
    ensures gradAccu >= 1 ==> r == Ok(loaderLen / gradAccu * epochs)
  {
    if gradAccu == 0 then Err(ZeroDivisionError) else Ok(FloorDiv(loaderLen, gradAccu) * epochs)
  }

  /** Every epoch runs to its end exactly under `EpochsRun`; once one has,
      the loop variable `step` is bound. */
  lemma {:induction false} RunAfterSucceedsIff(epochs: seq<Epoch>, gradAccu: int, loggingStep: int)
    requires gradAccu != 0
    ensures RunAfter(epochs, gradAccu, loggingStep).Ok? <==> EpochsRun(epochs, loggingStep)
    ensures RunAfter(epochs, gradAccu, loggingStep).Ok? ==>
      (RunAfter(epochs, gradAccu, loggingStep).value.lastStep.Some? <==> |epochs| > 0)
    decreases |epochs|
  {
    if |epochs| > 0 {
      var n := |epochs| - 1;
      var init := epochs[..n];
      RunAfterSucceedsIff(init, gradAccu, loggingStep);
      if n > 0 {
        assert init[0] == epochs[0];
        assert EpochsRun(epochs, loggingStep) <==> EpochsRun(init, loggingStep) && |epochs[n].dev| > 0 by {
          forall k | 0 <= k < n ensures init[k] == epochs[k] {
          }
        }
      }
    }
  }

  /** What one epoch adds to the record: its report, the best-loss update
      and, on a strict improvement, a checkpoint. */
  lemma EpochRecord(st: RunState, ep: Epoch, gradAccu: int, loggingStep: int)
    requires gradAccu != 0 && EpochStep(st, ep, gradAccu, loggingStep).Ok?
    ensures |ep.dev| > 0
    ensures var next := EpochStep(st, ep, gradAccu, loggingStep).value;
      var v := MeanLoss(ep.dev);
      |next.reports| == |st.reports| + 1 && next.reports[..|st.reports|] == st.reports &&
      next.reports[|st.reports|].valLoss == v && next.reports[|st.reports|].valAcc == ep.devAcc &&
      next.best == NextBest(st.best, v) &&
      next.checkpoints == st.checkpoints + (if v < st.best then [|st.reports|] else []) &&
      next.bestAcc == if v < st.best then Some(ep.devAcc) else st.bestAcc
  {
    var next := EpochStep(st, ep, gradAccu, loggingStep).value;
    assert next.reports[..|st.reports|] == st.reports;
  }

  /** The record `st` holds of the epochs it has run: each one reported
      with its own validation loss and accuracy, the best loss as the running
      minimum of those losses, checkpoints exactly at the strict
      improvements, and the accuracy of the last checkpoint kept. */
  predicate Recorded(epochs: seq<Epoch>, st: RunState)
  {
    var vals := ValLosses(st.reports);
    |st.reports| == |epochs| &&
    (forall k :: 0 <= k < |epochs| ==>
      |epochs[k].dev| > 0 && st.reports[k].valLoss == MeanLoss(epochs[k].dev) &&
      st.reports[k].valAcc == epochs[k].devAcc) &&
    st.best == BestAfter(InitialBest, vals) &&
    st.checkpoints == Improvements(InitialBest, vals) &&
    st.bestAcc == if |st.checkpoints| == 0 then None else Some(epochs[st.checkpoints[|st.checkpoints| - 1]].devAcc)
  }

  /** One more epoch keeps the per-epoch reports. */
  lemma RecordedReports(epochs: seq<Epoch>, prev: RunState, gradAccu: int, loggingStep: int)
    requires gradAccu != 0 && |epochs| > 0 && Recorded(epochs[..|epochs| - 1], prev)
    requires EpochStep(prev, epochs[|epochs| - 1], gradAccu, loggingStep).Ok?
    ensures var st := EpochStep(prev, epochs[|epochs| - 1], gradAccu, loggingStep).value;
      |st.reports| == |epochs| &&
      forall k :: 0 <= k < |epochs| ==>
        |epochs[k].dev| > 0 && st.reports[k].valLoss == MeanLoss(epochs[k].dev) &&
        st.reports[k].valAcc == epochs[k].devAcc
  {
    var n := |epochs| - 1;
    var done, ep := epochs[..n], epochs[n];
    var st := EpochStep(prev, ep, gradAccu, loggingStep).value;
    EpochRecord(prev, ep, gradAccu, loggingStep);
    forall k | 0 <= k < |epochs|
      ensures |epochs[k].dev| > 0 && st.reports[k].valLoss == MeanLoss(epochs[k].dev)
      ensures st.reports[k].valAcc == epochs[k].devAcc
    {
      if k < n {
        assert done[k] == epochs[k] && st.reports[k] == st.reports[..n][k];
      } else {
        assert k == |prev.reports|;
      }
    }
  }

  /** One more epoch keeps the best loss, the checkpoints and the kept accuracy. */
  lemma RecordedBest(epochs: seq<Epoch>, prev: RunState, gradAccu: int, loggingStep: int)
    requires gradAccu != 0 && |epochs| > 0 && Recorded(epochs[..|epochs| - 1], prev)
    requires EpochStep(prev, epochs[|epochs| - 1], gradAccu, loggingStep).Ok?
    ensures var st := EpochStep(prev, epochs[|epochs| - 1], gradAccu, loggingStep).value;
      var vals := ValLosses(st.reports);
      st.best == BestAfter(InitialBest, vals) &&
      st.checkpoints == Improvements(InitialBest, vals) &&
      st.bestAcc == if |st.checkpoints| == 0 then None else Some(epochs[st.checkpoints[|st.checkpoints| - 1]].devAcc)
  {
    var n := |epochs| - 1;
    var done, ep := epochs[..n], epochs[n];
    var st := EpochStep(prev, ep, gradAccu, loggingStep).value;
    EpochRecord(prev, ep, gradAccu, loggingStep);
    var vals := ValLosses(st.reports);
    var v := MeanLoss(ep.dev);
    var pv := ValLosses(prev.reports);
    assert vals[..n] == pv && vals[n] == v by {
      assert st.reports[..|st.reports| - 1] == prev.reports;
    }
    assert st.best == BestAfter(InitialBest, vals) by {
      assert BestAfter(InitialBest, vals) == NextBest(BestAfter(InitialBest, pv), v);
    }
    assert st.checkpoints == Improvements(InitialBest, vals) by {
      assert Improvements(InitialBest, vals) ==
        Improvements(InitialBest, pv) + (if v < BestAfter(InitialBest, pv) then [n] else []);
    }
    if st.checkpoints != prev.checkpoints {
      assert st.checkpoints[|st.checkpoints| - 1] == n;
    } else if |st.checkpoints| > 0 {
      var c := st.checkpoints[|st.checkpoints| - 1];
      assert c < n && done[c] == epochs[c];
    }
  }

  /** When every epoch has run, the state holds their record. */
  lemma {:induction false} RunRecord(epochs: seq<Epoch>, gradAccu: int, loggingStep: int)
    requires gradAccu != 0 && RunAfter(epochs, gradAccu, loggingStep).Ok?
    ensures Recorded(epochs, RunAfter(epochs, gradAccu, loggingStep).value)
    decreases |epochs|
  {
    if |epochs| > 0 {
      var init := epochs[..|epochs| - 1];
      RunRecord(init, gradAccu, loggingStep);
      var prev := RunAfter(init, gradAccu, loggingStep).value;
      RecordedReports(epochs, prev, gradAccu, loggingStep);
      RecordedBest(epochs, prev, gradAccu, loggingStep);
    }
  }

  /** `train` returns a result exactly when G is non-zero, every epoch runs
      to its end, and some epoch's validation loss is below 1e9 (otherwise
      `best_val_acc` is never bound). */
  lemma RunSucceedsIff(epochs: seq<Epoch>, gradAccu: int, loggingStep: int)
    ensures Run(epochs, gradAccu, loggingStep).Ok? <==>
      gradAccu != 0 && EpochsRun(epochs, loggingStep) &&
      exists k :: 0 <= k < |epochs| && |epochs[k].dev| > 0 && MeanLoss(epochs[k].dev) < InitialBest
  {
    if gradAccu != 0 {
      RunAfterSucceedsIff(epochs, gradAccu, loggingStep);
      if RunAfter(epochs, gradAccu, loggingStep).Ok? {
        RunRecord(epochs, gradAccu, loggingStep);
        var st := RunAfter(epochs, gradAccu, loggingStep).value;
        NoImprovementIff(InitialBest, ValLosses(st.reports));
      }
    }
  }

  /** Once a checkpoint exists, the best loss is the smallest epoch loss;
      the accuracy kept with it is that of the first epoch reaching it. */
  lemma BestOfRecord(epochs: seq<Epoch>, st: RunState)
    requires Recorded(epochs, st) && st.bestAcc.Some?
    ensures st.best < InitialBest
    ensures forall k :: 0 <= k < |epochs| ==> |epochs[k].dev| > 0 && st.best <= MeanLoss(epochs[k].dev)
    ensures exists k :: 0 <= k < |epochs| && |epochs[k].dev| > 0 &&
                        st.best == MeanLoss(epochs[k].dev) && st.bestAcc.value == epochs[k].devAcc &&
                        forall j :: 0 <= j < k ==> st.best < MeanLoss(epochs[j].dev)
  {
    var vals := ValLosses(st.reports);
    var imp := st.checkpoints;
    var k := imp[|imp| - 1];
    LastImprovementIsFirstMinimum(InitialBest, vals);
    assert st.best == vals[k] && k < |epochs| && st.bestAcc.value == epochs[k].devAcc;
    forall i | 0 <= i < |epochs| ensures |epochs[i].dev| > 0 && st.best <= MeanLoss(epochs[i].dev) {
      assert vals[i] == st.reports[i].valLoss;
    }
    forall j | 0 <= j < k ensures st.best < MeanLoss(epochs[j].dev) {
      assert vals[j] == st.reports[j].valLoss;
    }
    assert st.best == MeanLoss(epochs[k].dev) by {
      assert vals[k] == st.reports[k].valLoss;
    }
  }

  /** What `train` returns: the best validation loss is the smallest epoch
      loss and is below 1e9; the accuracy returned with it is that of the
      first epoch reaching that loss (a tie keeps the earlier checkpoint);
      the returned training loss and accuracy are 0. */
  lemma RunOutcome(epochs: seq<Epoch>, gradAccu: int, loggingStep: int)
    requires Run(epochs, gradAccu, loggingStep).Ok?
    ensures var o := Run(epochs, gradAccu, loggingStep).value;
      o.trainLoss == 0.0 && o.trainAcc == 0.0 && o.bestValLoss < InitialBest &&
      (forall k :: 0 <= k < |epochs| ==> |epochs[k].dev| > 0 && o.bestValLoss <= MeanLoss(epochs[k].dev)) &&
      exists k :: 0 <= k < |epochs| && |epochs[k].dev| > 0 &&
        o.bestValLoss == MeanLoss(epochs[k].dev) && o.bestValAcc == epochs[k].devAcc &&
        forall j :: 0 <= j < k ==> o.bestValLoss < MeanLoss(epochs[j].dev)
  {
    RunRecord(epochs, gradAccu, loggingStep);
    var st := RunAfter(epochs, gradAccu, loggingStep).value;
    BestOfRecord(epochs, st);
  }

  /** Over the whole run, every micro-batch's gradient has been applied by
      exactly one optimizer step or is still pending, and the step counter
      is the number of optimizer steps; with G >= 1 an epoch of n
      micro-batches takes n / G steps. */
  lemma {:induction false} RunGlobalSteps(epochs: seq<Epoch>, gradAccu: int, loggingStep: int)
    requires gradAccu != 0 && RunAfter(epochs, gradAccu, loggingStep).Ok?
    ensures var st := RunAfter(epochs, gradAccu, loggingStep).value;
      Sum(st.applied) + st.pending == MicroCount(epochs) &&
      st.globalStep == |st.applied| &&
      (gradAccu >= 1 ==> st.globalStep == StepsTaken(epochs, gradAccu))
    decreases |epochs|
  {
    if |epochs| > 0 {
      var n := |epochs| - 1;
      var init := epochs[..n];
      var prev := RunAfter(init, gradAccu, loggingStep).value;
      RunGlobalSteps(init, gradAccu, loggingStep);
      var ms := epochs[n].micro;
      var es := EpochAfter(prev.globalStep, prev.pending, ms, gradAccu, loggingStep);
      GradientConserved(prev.globalStep, prev.pending, ms, gradAccu, loggingStep);
      SumConcat(prev.applied, es.applied);
      if gradAccu >= 1 {
        AccumulationCounter(prev.globalStep, prev.pending, ms, gradAccu, loggingStep);
      }
    }
  }

  lemma {:induction false} SumConcat(a: seq<nat>, b: seq<nat>)
    ensures Sum(a + b) == Sum(a) + Sum(b)
    decreases |b|
  {
    if |b| == 0 {
      assert a + b == a;
    } else {
      var n := |b| - 1;
      assert (a + b)[..|a + b| - 1] == a + b[..n];
      SumConcat(a, b[..n]);
    }
  }

  /** With loaders of a fixed length n, the optimizer takes exactly the
      `t_total` steps the schedule was built for. */
  lemma ScheduleHorizonMatchesSteps(epochs: seq<Epoch>, n: nat, gradAccu: int, loggingStep: int)
    requires gradAccu >= 1 && RunAfter(epochs, gradAccu, loggingStep).Ok?
    requires forall k :: 0 <= k < |epochs| ==> |epochs[k].micro| == n
    ensures TotalSteps(n, gradAccu, |epochs|) == Ok(RunAfter(epochs, gradAccu, loggingStep).value.globalStep)
  {
    RunGlobalSteps(epochs, gradAccu, loggingStep);
    UniformSteps(epochs, n, gradAccu);
  }

  lemma {:induction false} UniformSteps(epochs: seq<Epoch>, n: nat, gradAccu: int)
    requires gradAccu >= 1
    requires forall k :: 0 <= k < |epochs| ==> |epochs[k].micro| == n
    ensures StepsTaken(epochs, gradAccu) == n / gradAccu * |epochs|
    decreases |epochs|
  {
    if |epochs| > 0 {
      var e := |epochs| - 1;
      assert forall k :: 0 <= k < e ==> epochs[..e][k] == epochs[k];
      UniformSteps(epochs[..e], n, gradAccu);
      assert n / gradAccu * (e + 1) == n / gradAccu * e + n / gradAccu;
    }
  }

  /** The epoch's reported training figures are the micro-batch figures
      summed and divided by the number of micro-batches; with G > 1 the
      summed figures were already divided by G, so the report is the mean
      over G times the micro-batch count. */
  lemma EpochMeanFigures(st: RunState, ep: Epoch, gradAccu: int, loggingStep: int)
    requires gradAccu != 0 && EpochStep(st, ep, gradAccu, loggingStep).Ok? && |ep.micro| > 0
    ensures var rep := EpochStep(st, ep, gradAccu, loggingStep).value.reports[|st.reports|];
      rep.train == (if gradAccu > 1 then Over(Total(ep.micro), (gradAccu * |ep.micro|) as real)
                    else Over(Total(ep.micro), |ep.micro| as real))
  {
    ReportedTrain(st, ep, gradAccu, loggingStep);
    RunningTotal(st.globalStep, st.pending, ep.micro, gradAccu, loggingStep);
    if gradAccu > 1 {
      OverProduct(Total(ep.micro), gradAccu, |ep.micro|);
    }
  }

  lemma ReportedTrain(st: RunState, ep: Epoch, gradAccu: int, loggingStep: int)
    requires gradAccu != 0 && EpochStep(st, ep, gradAccu, loggingStep).Ok? && |ep.micro| > 0
    ensures EpochStep(st, ep, gradAccu, loggingStep).value.reports[|st.reports|].train ==
      Over(EpochAfter(st.globalStep, st.pending, ep.micro, gradAccu, loggingStep).train, |ep.micro| as real)
  {
  }

  /** Dividing by G and then by n is dividing by G * n. */
  lemma OverProduct(a: Measure, g: int, n: int)
    requires g >= 1 && n >= 1
    ensures Over(Over(a, g as real), n as real) == Over(a, (g * n) as real)
  {
    var x, y := g as real, n as real;
    assert (g * n) as real == x * y;
    assert a.loss / x / y == a.loss / (x * y);
    assert a.acc / x / y == a.acc / (x * y);
    assert a.f1 / x / y == a.f1 / (x * y);
  }

  /** Two epochs of three micro-batches with G = 2: the third micro-batch's
      gradient is never cleared at the end of the first epoch, so the first
      optimizer step of the second epoch applies three micro-batches. */
  lemma LeftoverGradientCarries(m: Measure, d: EvalBatch)
    ensures var ep := Epoch([m, m, m], [d], 0.5);
      var r := RunAfter([ep, ep], 2, 1);
      r.Ok? && r.value.applied == [2, 3] && r.value.pending == 1 && r.value.globalStep == 2
  {
    var ep := Epoch([m, m, m], [d], 0.5);
    var one := RunAfter([ep], 2, 1);
    assert [ep, ep][..1] == [ep];
    assert [ep][..0] == [];
    AccumulationCounter(0, 0, [m, m, m], 2, 1);
    assert RunAfter([ep][..0], 2, 1) == Ok(Start);
    assert one == EpochStep(Start, ep, 2, 1);
    assert one.Ok? && one.value.applied == [2] && one.value.pending == 1 && one.value.globalStep == 1;
    AccumulationCounter(1, 1, [m, m, m], 2, 1);
  }

  /** The inner loop of `train` over one epoch's micro-batches, started
      from the counters left by the previous epoch; `step` is the loop
      variable as it stands after the loop. */
  method MicroBatches(gs0: nat, p0: nat, step0: Option<nat>, micro: seq<Measure>, gradAccu: int, loggingStep: int)
    returns (r: Result<State>, step: Option<nat>)
    requires gradAccu != 0
    ensures loggingStep == 0 && |micro| > 0 ==> r == Err(ZeroDivisionError)
    ensures loggingStep != 0 || |micro| == 0 ==> r == Ok(EpochAfter(gs0, p0, micro, gradAccu, loggingStep))
    ensures r.Ok? ==> step == if |micro| > 0 then Some(|micro| - 1) else step0
  {
    var globalStep: nat, pending: nat := gs0, p0;
    var train, logging := Zero, Zero;
    var logs: seq<LogRecord> := [];
    var applied: seq<nat> := [];
    step := step0;
    for s := 0 to |micro|
      invariant loggingStep != 0 || s == 0
      invariant EpochAfter(gs0, p0, micro[..s], gradAccu, loggingStep) ==
        State(globalStep, pending, train, logging, logs, applied)
      invariant step == if s == 0 then step0 else Some(s - 1)
    {
      step := Some(s);
      assert micro[..s + 1][..s] == micro[..s];
      var m := micro[s];
      if gradAccu > 1 {
        m := Over(m, gradAccu as real);
      }
      pending := pending + 1;
      train := Plus(train, m);
      if loggingStep == 0 {
        return Err(ZeroDivisionError), step;
      }
      if (globalStep + 1) % loggingStep == 0 {
        logs := logs + [LogRecord(globalStep + 1, Over(Minus(train, logging), loggingStep as real))];
        logging := train;
      }
      if (s + 1) % gradAccu == 0 {
        applied := applied + [pending];
        pending := 0;
        globalStep := globalStep + 1;
      }
    }
    assert micro[..|micro|] == micro;
    r := Ok(State(globalStep, pending, train, logging, logs, applied));
  }

  /** One pass of the outer loop of `train`: the micro-batches, the epoch
      means, validation and the checkpoint decision. */
  method TrainEpoch(st: RunState, ep: Epoch, gradAccu: int, loggingStep: int) returns (r: Result<RunState>)
    requires gradAccu != 0
    ensures r == EpochStep(st, ep, gradAccu, loggingStep)
  {
    var es, step := MicroBatches(st.globalStep, st.pending, st.lastStep, ep.micro, gradAccu, loggingStep);
    if es.Err? {
      return Err(es.failure);
    }
    if step.None? {
      return Err(UnboundLocalError("step"));
    }
    var e := es.value;
    var mean := Over(e.train, (step.value + 1) as real);
    var ev := Evaluate(ep.dev);
    if ev.Err? {
      return Err(ev.failure);
    }
    var valLoss := ev.value.meanLoss;
    var bestValLoss, bestValAcc, checkpoints := st.best, st.bestAcc, st.checkpoints;
    if valLoss < bestValLoss {
      checkpoints := checkpoints + [|st.reports|];
      bestValLoss := valLoss;
      bestValAcc := Some(ep.devAcc);
    }
    r := Ok(RunState(e.globalStep, e.pending, step, st.logs + e.logs, st.applied + e.applied,
                     st.reports + [EpochReport(e.globalStep + 1, mean, valLoss, ep.devAcc)],
                     bestValLoss, bestValAcc, checkpoints));
  }

  /** `train`: the epochs one after the other, stopping at the first error. */
  method Train(epochs: seq<Epoch>, gradAccu: int, loggingStep: int) returns (r: Result<TrainOutcome>)
    ensures r == Run(epochs, gradAccu, loggingStep)
  {
    if gradAccu == 0 {
      return Err(ZeroDivisionError);
    }
    var st := Start;
    for epoch := 0 to |epochs|
      invariant RunAfter(epochs[..epoch], gradAccu, loggingStep) == Ok(st)
    {
      assert epochs[..epoch + 1][..epoch] == epochs[..epoch];
      var next := TrainEpoch(st, epochs[epoch], gradAccu, loggingStep);
      if next.Err? {
        ErrorPersists(epochs, epoch + 1, gradAccu, loggingStep);
        return Err(next.failure);
      }
      st := next.value;
    }
    assert epochs[..|epochs|] == epochs;
    if st.bestAcc.None? {
      return Err(UnboundLocalError("best_val_acc"));
    }
    return Ok(TrainOutcome(st.globalStep, 0.0, 0.0, st.best, st.bestAcc.value,
                           st.logs, st.applied, st.reports, st.checkpoints));
  }
}
