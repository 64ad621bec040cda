/** The per-micro-batch bookkeeping of one training epoch: running totals,
    the gradient-accumulation counter, the optimizer step and the
    delta-since-last-log scheme. The model, its backward pass and the
    optimizer are abstract: a micro-batch is just the loss, accuracy and
    macro-F1 it reports. */
module Accumulation {
  import opened Integers

  /** Loss, accuracy and macro-F1 of one micro-batch, or a running total of them. */
  datatype Measure = Measure(loss: real, acc: real, f1: real)

  const Zero: Measure := Measure(0.0, 0.0, 0.0)

  function Plus(a: Measure, b: Measure): Measure
  {
    Measure(a.loss + b.loss, a.acc + b.acc, a.f1 + b.f1)
  }

  function Minus(a: Measure, b: Measure): Measure
  {
    Measure(a.loss - b.loss, a.acc - b.acc, a.f1 - b.f1)
  }

  function Over(a: Measure, k: real): Measure
    requires k != 0.0
  {
    Measure(a.loss / k, a.acc / k, a.f1 / k)
  }

  /** The sum of a sequence of measures, left to right. */
  function Total(ms: seq<Measure>): Measure
    decreases |ms|
  {
    if |ms| == 0 then Zero else Plus(Total(ms[..|ms| - 1]), ms[|ms| - 1])
  }

  /** What one micro-batch adds to the running totals: a G-th of its
      figures when the accumulation factor G exceeds 1, all of them otherwise. */
  function Contribution(m: Measure, gradAccu: int): (c: Measure)
    ensures gradAccu > 1 ==>
      c.loss * gradAccu as real == m.loss && c.acc * gradAccu as real == m.acc &&
      c.f1 * gradAccu as real == m.f1
    ensures gradAccu <= 1 ==> c == m
  {
    if gradAccu > 1 then Over(m, gradAccu as real) else m
  }

  /** One periodic log line: the printed step (`global_step + 1`) and the
      logged loss, accuracy and macro-F1. */
  datatype LogRecord = LogRecord(step: int, delta: Measure)

  /** The loop variables of one epoch. `pending` counts the micro-batches
      whose gradients have been accumulated since the last `zero_grad`;
      `applied` records, for each optimizer step of the epoch, how many
      micro-batches it applied. */
  datatype State = State(globalStep: nat, pending: nat, train: Measure, logging: Measure,
                         logs: seq<LogRecord>, applied: seq<nat>)

  /** One iteration of the inner loop, for micro-batch index `step`. */
  function MicroStep(st: State, m: Measure, step: nat, gradAccu: int, loggingStep: int): State
    requires gradAccu != 0 && loggingStep != 0
  {
    var train := Plus(st.train, Contribution(m, gradAccu));
    var pending := st.pending + 1;
    var logged := (st.globalStep + 1) % loggingStep == 0;
    var logs := if logged
      then st.logs + [LogRecord(st.globalStep + 1, Over(Minus(train, st.logging), loggingStep as real))]
      else st.logs;
    var logging := if logged then train else st.logging;
    if (step + 1) % gradAccu == 0 then
      State(st.globalStep + 1, 0, train, logging, logs, st.applied + [pending])
    else
      State(st.globalStep, pending, train, logging, logs, st.applied)
  }

  /** The loop variables after the first |ms| micro-batches of an epoch that
      starts at global step `gs0` with `p0` micro-batches of gradient left over. */
  function EpochAfter(gs0: nat, p0: nat, ms: seq<Measure>, gradAccu: int, loggingStep: int): State
    requires gradAccu != 0 && (loggingStep != 0 || |ms| == 0)
    decreases |ms|
  {
    if |ms| == 0 then State(gs0, p0, Zero, Zero, [], [])
    else MicroStep(EpochAfter(gs0, p0, ms[..|ms| - 1], gradAccu, loggingStep),
                   ms[|ms| - 1], |ms| - 1, gradAccu, loggingStep)
  }

  lemma {:induction false} MulAtLeast(d: int, x: int)
    requires d >= 1 && x >= 1
    ensures d * x >= d
    decreases x
  {
    if x > 1 {
      MulAtLeast(d, x - 1);
      assert d * x == d * (x - 1) + d;
    }
  }

  /** Euclidean division is determined by its defining equation. */
  lemma DivModUnique(a: int, d: int, q: int, r: int)
    requires d >= 1 && 0 <= r < d && a == d * q + r
    ensures a / d == q && a % d == r
  {
    var q0, r0 := a / d, a % d;
    var t := q - q0;
    assert d * q == d * q0 + d * t;
    if t >= 1 {
      MulAtLeast(d, t);
    } else if t <= -1 {
      MulAtLeast(d, -t);
    }
  }

  lemma DivAtLeastOne(a: int, d: int)
    requires a >= d >= 1
    ensures a / d >= 1
  {
    var q := a / d;
    if q < 0 {
      MulAtLeast(d, -q);
    }
  }

  /** How `k / d` and `k % d` move when `k` grows by one. */
  lemma SuccDivMod(k: int, d: int)
    requires d >= 1
    ensures (k + 1) % d == 0 ==> (k + 1) / d == k / d + 1 && k % d == d - 1
    ensures (k + 1) % d != 0 ==> (k + 1) / d == k / d && (k + 1) % d == k % d + 1
  {
    var q, r := k / d, k % d;
    if r == d - 1 {
      DivModUnique(k + 1, d, q + 1, 0);
    } else {
      DivModUnique(k + 1, d, q, r + 1);
    }
  }

  /** How the quotient and remainder by G of the micro-batch count move
      compared with those of the count before, and when either is below G. */
  lemma CounterArith(k: int, d: int)
    requires k >= 1 && d >= 1
    ensures var q, r := (k - 1) / d, (k - 1) % d;
      (k - 1 < d <==> q == 0) && (q == 0 ==> r == k - 1) &&
      (k < d <==> q == 0 && r < d - 1) &&
      (r == d - 1 ==> k / d == q + 1 && k % d == 0) &&
      (r != d - 1 ==> k / d == q && k % d == r + 1)
  {
    var q, r := (k - 1) / d, (k - 1) % d;
    SuccDivMod(k - 1, d);
    if k - 1 < d {
      DivModUnique(k - 1, d, 0, k - 1);
    } else {
      DivAtLeastOne(k - 1, d);
    }
  }

  /** Over an epoch of n micro-batches with G >= 1, the optimizer steps
      exactly n / G times; the first step also applies the gradient left
      over from the previous epoch, every other step applies exactly G
      micro-batches, and n % G micro-batches stay pending at the end. */
  lemma {:induction false} AccumulationCounter(gs0: nat, p0: nat, ms: seq<Measure>, gradAccu: int, loggingStep: int)
    requires gradAccu >= 1 && (loggingStep != 0 || |ms| == 0)
    ensures var st := EpochAfter(gs0, p0, ms, gradAccu, loggingStep);
      st.globalStep == gs0 + |ms| / gradAccu &&
      |st.applied| == |ms| / gradAccu &&
      st.pending == (if |ms| < gradAccu then p0 + |ms| else |ms| % gradAccu) &&
      forall i :: 0 <= i < |st.applied| ==> st.applied[i] == (if i == 0 then p0 + gradAccu else gradAccu)
    decreases |ms|
  {
    var k := |ms|;
    if k == 0 {
      DivModUnique(0, gradAccu, 0, 0);
    } else {
      var prev := EpochAfter(gs0, p0, ms[..k - 1], gradAccu, loggingStep);
      var st := EpochAfter(gs0, p0, ms, gradAccu, loggingStep);
      AccumulationCounter(gs0, p0, ms[..k - 1], gradAccu, loggingStep);
      CounterArith(k, gradAccu);
      var q, r := (k - 1) / gradAccu, (k - 1) % gradAccu;
      if r == gradAccu - 1 {
        assert st.globalStep == prev.globalStep + 1 && st.pending == 0 &&
               st.applied == prev.applied + [prev.pending + 1];
        assert prev.pending + 1 == (if q == 0 then p0 + gradAccu else gradAccu);
      } else {
        assert st.globalStep == prev.globalStep && st.pending == prev.pending + 1 &&
               st.applied == prev.applied;
      }
    }
  }

  /** The number of micro-batches the optimizer steps applied, in total. */
  function Sum(xs: seq<nat>): nat
    decreases |xs|
  {
    if |xs| == 0 then 0 else Sum(xs[..|xs| - 1]) + xs[|xs| - 1]
  }

  /** For any non-zero G, no gradient is lost or applied twice: the gradients
      the optimizer steps have applied, plus the ones still pending, are the
      pending ones at the start plus one per micro-batch; and each
      optimizer step appends exactly one entry to `applied`. */
  lemma {:induction false} GradientConserved(gs0: nat, p0: nat, ms: seq<Measure>, gradAccu: int, loggingStep: int)
    requires gradAccu != 0 && (loggingStep != 0 || |ms| == 0)
    ensures var st := EpochAfter(gs0, p0, ms, gradAccu, loggingStep);
      Sum(st.applied) + st.pending == p0 + |ms| &&
      st.globalStep == gs0 + |st.applied|
    decreases |ms|
  {
    if |ms| > 0 {
      var prev := EpochAfter(gs0, p0, ms[..|ms| - 1], gradAccu, loggingStep);
      GradientConserved(gs0, p0, ms[..|ms| - 1], gradAccu, loggingStep);
      var st := EpochAfter(gs0, p0, ms, gradAccu, loggingStep);
      if st.applied != prev.applied {
        assert st.applied[..|st.applied| - 1] == prev.applied;
      }
    }
  }

  lemma OverPlus(a: Measure, b: Measure, k: real)
    requires k != 0.0
    ensures Over(Plus(a, b), k) == Plus(Over(a, k), Over(b, k))
  {
    assert (a.loss + b.loss) / k == a.loss / k + b.loss / k;
    assert (a.acc + b.acc) / k == a.acc / k + b.acc / k;
    assert (a.f1 + b.f1) / k == a.f1 / k + b.f1 / k;
  }

  /** The running totals: a G-th of the epoch's summed figures when G > 1,
      the summed figures themselves otherwise. */
  lemma {:induction false} RunningTotal(gs0: nat, p0: nat, ms: seq<Measure>, gradAccu: int, loggingStep: int)
    requires gradAccu != 0 && (loggingStep != 0 || |ms| == 0)
    ensures gradAccu > 1 ==> EpochAfter(gs0, p0, ms, gradAccu, loggingStep).train == Over(Total(ms), gradAccu as real)
    ensures gradAccu <= 1 ==> EpochAfter(gs0, p0, ms, gradAccu, loggingStep).train == Total(ms)
    decreases |ms|
  {
    if |ms| > 0 {
      var k := |ms|;
      RunningTotal(gs0, p0, ms[..k - 1], gradAccu, loggingStep);
      if gradAccu > 1 {
        OverPlus(Total(ms[..k - 1]), ms[k - 1], gradAccu as real);
      }
    } else {
      assert Over(Zero, gradAccu as real) == Zero;
    }
  }

  lemma PlusAssoc(a: Measure, b: Measure, c: Measure)
    ensures Plus(Plus(a, b), c) == Plus(a, Plus(b, c))
  {
  }

  /** The total of two runs of micro-batches is the sum of their totals. */
  lemma {:induction false} TotalAppend(a: seq<Measure>, b: seq<Measure>)
    ensures Total(a + b) == Plus(Total(a), Total(b))
    decreases |b|
  {
    if |b| == 0 {
      assert a + b == a;
      var t := Total(a);
      assert Plus(t, Zero) == Measure(t.loss, t.acc, t.f1);
    } else {
      var n := |b| - 1;
      var ab := a + b;
      assert Total(ab) == Plus(Total(a + b[..n]), b[n]) by {
        assert ab[..|ab| - 1] == a + b[..n];
        assert ab[|ab| - 1] == b[n];
      }
      TotalAppend(a, b[..n]);
      PlusAssoc(Total(a), Total(b[..n]), b[n]);
    }
  }

  /** Splitting a sequence splits its total. */
  lemma TotalSplit(ms: seq<Measure>, j: nat)
    requires j <= |ms|
    ensures Total(ms) == Plus(Total(ms[..j]), Total(ms[j..]))
  {
    assert ms == ms[..j] + ms[j..];
    TotalAppend(ms[..j], ms[j..]);
  }

  /** Euclidean remainder depends only on the size of the divisor, so a
      negative `logging_step` tests the same divisibility as its absolute value. */
  lemma ModAbs(a: int, d: int)
    requires d != 0
    ensures a % d == a % Abs(d)
  {
    if d < 0 {
      var q, r := a / d, a % d;
      assert a == (-d) * (-q) + r;
      DivModUnique(a, -d, -q, r);
    }
  }

  /** With G == 1, how many of the first k micro-batches of an epoch
      entered at step gs0 precede (and include) the last logged one. */
  function LastLogged(gs0: nat, k: nat, loggingStep: int): (r: nat)
    requires loggingStep != 0
    ensures r <= k
    decreases k
  {
    if k == 0 then 0
    else if (gs0 + k) % loggingStep == 0 then k
    else LastLogged(gs0, k - 1, loggingStep)
  }

  lemma {:induction false} LastLoggedFormula(gs0: nat, k: nat, loggingStep: int)
    requires loggingStep != 0
    ensures LastLogged(gs0, k, loggingStep) == Max(0, k - (gs0 + k) % loggingStep)
    decreases k
  {
    if k > 0 && (gs0 + k) % loggingStep != 0 {
      LastLoggedFormula(gs0, k - 1, loggingStep);
      ModAbs(gs0 + k, loggingStep);
      ModAbs(gs0 + k - 1, loggingStep);
      SuccDivMod(gs0 + k - 1, Abs(loggingStep));
    }
  }

  /** With G == 1 every micro-batch completes an optimizer step. */
  lemma ModOne(k: int)
    ensures k % 1 == 0
  {
    DivModUnique(k, 1, k, 0);
  }

  /** One micro-batch with G == 1 carries the snapshot facts forward. */
  lemma LoggingSnapshotStep(prev: State, gs0: nat, ms: seq<Measure>, loggingStep: int)
    requires loggingStep != 0 && |ms| >= 1
    requires prev.globalStep == gs0 + |ms| - 1 && prev.train == Total(ms[..|ms| - 1])
    requires prev.logging == Total(ms[..|ms| - 1][..LastLogged(gs0, |ms| - 1, loggingStep)])
    ensures var st := MicroStep(prev, ms[|ms| - 1], |ms| - 1, 1, loggingStep);
      st.globalStep == gs0 + |ms| && st.train == Total(ms) &&
      st.logging == Total(ms[..LastLogged(gs0, |ms|, loggingStep)])
  {
    var k := |ms|;
    var init := ms[..k - 1];
    ModOne(k);
    var st := MicroStep(prev, ms[k - 1], k - 1, 1, loggingStep);
    assert st.train == Total(ms) by {
      assert Contribution(ms[k - 1], 1) == ms[k - 1];
    }
    if (gs0 + k) % loggingStep == 0 {
      assert ms[..k] == ms;
    } else {
      var j := LastLogged(gs0, k - 1, loggingStep);
      assert init[..j] == ms[..j];
    }
  }

  lemma {:induction false} LoggingSnapshotAt(gs0: nat, p0: nat, ms: seq<Measure>, loggingStep: int)
    requires loggingStep != 0
    ensures var st := EpochAfter(gs0, p0, ms, 1, loggingStep);
      st.globalStep == gs0 + |ms| && st.train == Total(ms) &&
      st.logging == Total(ms[..LastLogged(gs0, |ms|, loggingStep)])
    decreases |ms|
  {
    if |ms| == 0 {
      assert ms[..0] == [];
    } else {
      var prev := EpochAfter(gs0, p0, ms[..|ms| - 1], 1, loggingStep);
      LoggingSnapshotAt(gs0, p0, ms[..|ms| - 1], loggingStep);
      LoggingSnapshotStep(prev, gs0, ms, loggingStep);
    }
  }

  /** With G == 1 every micro-batch is an optimizer step, and the logging
      snapshot is the total up to the most recent logged micro-batch (zero
      before the epoch's first log line). */
  lemma LoggingSnapshot(gs0: nat, p0: nat, ms: seq<Measure>, loggingStep: int)
    requires loggingStep != 0
    ensures var st := EpochAfter(gs0, p0, ms, 1, loggingStep);
      st.globalStep == gs0 + |ms| && st.train == Total(ms) &&
      st.logging == Total(ms[..Max(0, |ms| - (gs0 + |ms|) % loggingStep)])
  {
    LoggingSnapshotAt(gs0, p0, ms, loggingStep);
    LastLoggedFormula(gs0, |ms|, loggingStep);
  }

  lemma MinusPlus(a: Measure, b: Measure)
    ensures Minus(Plus(a, b), a) == b
  {
  }

  /** Just before a logging step, the last earlier log lies one whole window back. */
  lemma LastLoggedBeforeLog(gs0: nat, k: nat, loggingStep: int)
    requires loggingStep != 0 && k >= 1 && (gs0 + k) % loggingStep == 0
    ensures LastLogged(gs0, k - 1, loggingStep) == Max(0, k - Abs(loggingStep))
  {
    LastLoggedFormula(gs0, k - 1, loggingStep);
    ModAbs(gs0 + k, loggingStep);
    ModAbs(gs0 + k - 1, loggingStep);
    SuccDivMod(gs0 + k - 1, Abs(loggingStep));
  }

  /** Just before a micro-batch that completes a logging period, the
      snapshot is the total of all but the last period. */
  lemma SnapshotBeforeLog(gs0: nat, p0: nat, ms: seq<Measure>, loggingStep: int)
    requires loggingStep != 0 && |ms| >= 1 && (gs0 + |ms|) % loggingStep == 0
    ensures var prev := EpochAfter(gs0, p0, ms[..|ms| - 1], 1, loggingStep);
      prev.globalStep == gs0 + |ms| - 1 && prev.train == Total(ms[..|ms| - 1]) &&
      prev.logging == Total(ms[..Max(0, |ms| - Abs(loggingStep))])
  {
    var k := |ms|;
    var init := ms[..k - 1];
    var j := Max(0, k - Abs(loggingStep));
    LoggingSnapshotAt(gs0, p0, init, loggingStep);
    LastLoggedBeforeLog(gs0, k, loggingStep);
    assert init[..j] == ms[..j];
  }

  /** With G == 1, the line logged after a micro-batch that completes a
      logging period reports the sum of the last |`logging_step`|
      micro-batches (of fewer at the start of an epoch) divided by
      `logging_step`: the mean of the last period once that many
      micro-batches have run, and its negation when the interval is negative. */
  lemma LoggedDeltaIsWindowMean(gs0: nat, p0: nat, ms: seq<Measure>, loggingStep: int)
    requires loggingStep != 0 && |ms| >= 1 && (gs0 + |ms|) % loggingStep == 0
    ensures var st := EpochAfter(gs0, p0, ms, 1, loggingStep);
      |st.logs| > 0 &&
      st.logs[|st.logs| - 1] ==
        LogRecord(gs0 + |ms|, Over(Total(ms[Max(0, |ms| - Abs(loggingStep))..]), loggingStep as real))
  {
    var k := |ms|;
    var init := ms[..k - 1];
    var j := Max(0, k - Abs(loggingStep));
    var prev := EpochAfter(gs0, p0, init, 1, loggingStep);
    SnapshotBeforeLog(gs0, p0, ms, loggingStep);
    var train := Plus(prev.train, Contribution(ms[k - 1], 1));
    assert train == Total(ms) by {
      assert ms[..k - 1] == init;
    }
    assert Minus(train, prev.logging) == Total(ms[j..]) by {
      TotalSplit(ms, j);
      MinusPlus(Total(ms[..j]), Total(ms[j..]));
    }
    var st := MicroStep(prev, ms[k - 1], k - 1, 1, loggingStep);
    assert st.logs == prev.logs + [LogRecord(gs0 + k, Over(Total(ms[j..]), loggingStep as real))];
    assert EpochAfter(gs0, p0, ms, 1, loggingStep) == st;
  }

  /** Accumulation over G == 2 with `logging_step` 1 and four micro-batches
      of equal figures: two optimizer steps of two micro-batches each, but a
      log line after every micro-batch, labelled with a repeated step number
      and reporting half of a micro-batch's figures. */
  lemma AccumulationLogsHalfFigures(m: Measure)
    ensures var st := EpochAfter(0, 0, [m, m, m, m], 2, 1);
      var half := Over(m, 2.0);
      st.globalStep == 2 && st.pending == 0 && st.applied == [2, 2] &&
      st.logs == [LogRecord(1, half), LogRecord(1, half), LogRecord(2, half), LogRecord(2, half)]
  {
    var half := Over(m, 2.0);
    var ms := [m, m, m, m];
    var t2 := Plus(half, half);
    var t3 := Plus(t2, half);
    var t4 := Plus(t3, half);
    var l1, l2 := LogRecord(1, half), LogRecord(2, half);
    var s0 := State(0, 0, Zero, Zero, [], []);
    var s1 := State(0, 1, half, half, [l1], []);
    var s2 := State(1, 0, t2, t2, [l1, l1], [2]);
    var s3 := State(1, 1, t3, t3, [l1, l1, l2], [2]);
    var s4 := State(2, 0, t4, t4, [l1, l1, l2, l2], [2, 2]);
    assert Contribution(m, 2) == half;
    assert MicroStep(s0, m, 0, 2, 1) == s1 by {
      assert Plus(Zero, half) == half && Over(Minus(half, Zero), 1.0) == half;
    }
    assert MicroStep(s1, m, 1, 2, 1) == s2 by {
      assert Over(Minus(t2, half), 1.0) == half;
    }
    assert MicroStep(s2, m, 2, 2, 1) == s3 by {
      assert Over(Minus(t3, t2), 1.0) == half;
    }
    assert MicroStep(s3, m, 3, 2, 1) == s4 by {
      assert Over(Minus(t4, t3), 1.0) == half;
    }
    assert EpochAfter(0, 0, ms[..0], 2, 1) == s0;
    assert EpochAfter(0, 0, ms[..1], 2, 1) == s1 by {
      assert ms[..1][..0] == ms[..0];
    }
    assert EpochAfter(0, 0, ms[..2], 2, 1) == s2 by {
      assert ms[..2][..1] == ms[..1];
    }
    assert EpochAfter(0, 0, ms[..3], 2, 1) == s3 by {
      assert ms[..3][..2] == ms[..2];
    }
    assert EpochAfter(0, 0, ms, 2, 1) == s4 by {
      assert ms[..3] == ms[..|ms| - 1];
    }
  }
}
