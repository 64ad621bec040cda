/** The best-checkpoint rule: after each epoch the checkpoint is rewritten,
    and the best validation loss replaced, only when the epoch's validation
    loss is strictly below the best seen so far. */
module Checkpoint {

  /** `best_val_loss` before the first epoch. */
  const InitialBest: real := 1000000000.0

  /** The best loss after one more epoch: the smaller of the two, changed
      only on a strict decrease (a tie keeps the old checkpoint). */
  function NextBest(best: real, valLoss: real): (r: real)
    ensures r <= best && r <= valLoss
    ensures r == best || r == valLoss
    ensures r != best <==> valLoss < best
  {
    if valLoss < best then valLoss else best
  }

  /** The best loss after the epochs whose validation losses are `vals`. */
  function BestAfter(best0: real, vals: seq<real>): real
    decreases |vals|
  {
    if |vals| == 0 then best0
    else NextBest(BestAfter(best0, vals[..|vals| - 1]), vals[|vals| - 1])
  }

  /** The (0-based) epochs at which a checkpoint is written. */
  function Improvements(best0: real, vals: seq<real>): (r: seq<nat>)
    ensures forall i :: 0 <= i < |r| ==> r[i] < |vals|
    decreases |vals|
  {
    if |vals| == 0 then []
    else
      var k := |vals| - 1;
      Improvements(best0, vals[..k]) + (if vals[k] < BestAfter(best0, vals[..k]) then [k] else [])
  }

  /** The best loss is the minimum of the initial value and every epoch's loss. */
  lemma {:induction false} BestIsMinimum(best0: real, vals: seq<real>)
    ensures BestAfter(best0, vals) <= best0
    ensures forall i :: 0 <= i < |vals| ==> BestAfter(best0, vals) <= vals[i]
    ensures BestAfter(best0, vals) == best0 || exists i :: 0 <= i < |vals| && BestAfter(best0, vals) == vals[i]
    decreases |vals|
  {
    if |vals| > 0 {
      var k := |vals| - 1;
      var init := vals[..k];
      BestIsMinimum(best0, init);
      assert forall i :: 0 <= i < k ==> init[i] == vals[i];
      if BestAfter(best0, init) != best0 {
        var i :| 0 <= i < k && BestAfter(best0, init) == init[i];
        assert vals[i] == init[i];
      }
    }
  }

  /** Across epochs the best loss never goes up. */
  lemma {:induction false} BestNonIncreasing(best0: real, vals: seq<real>, i: nat, j: nat)
    requires i <= j <= |vals|
    ensures BestAfter(best0, vals[..j]) <= BestAfter(best0, vals[..i])
    decreases j - i
  {
    if i < j {
      BestNonIncreasing(best0, vals, i, j - 1);
      assert vals[..j][..j - 1] == vals[..j - 1];
    }
  }

  lemma {:induction false} ImprovementsMembership(best0: real, vals: seq<real>)
    ensures forall k :: k in Improvements(best0, vals) <==> 0 <= k < |vals| && vals[k] < BestAfter(best0, vals[..k])
    decreases |vals|
  {
    if |vals| > 0 {
      var n := |vals| - 1;
      var init := vals[..n];
      var prev := Improvements(best0, init);
      var tail: seq<nat> := if vals[n] < BestAfter(best0, init) then [n] else [];
      assert Improvements(best0, vals) == prev + tail;
      ImprovementsMembership(best0, init);
      forall k: nat
        ensures k in Improvements(best0, vals) <==> k < |vals| && vals[k] < BestAfter(best0, vals[..k])
      {
        assert k in prev + tail <==> k in prev || k in tail;
        if k < n {
          assert init[..k] == vals[..k] && init[k] == vals[k];
          assert k !in tail;
        } else if k == n {
          assert k !in prev;
        } else {
          assert k !in prev && k !in tail;
        }
      }
    }
  }

  lemma {:induction false} ImprovementsIncreasing(best0: real, vals: seq<real>)
    ensures forall a, b :: 0 <= a < b < |Improvements(best0, vals)| ==>
      Improvements(best0, vals)[a] < Improvements(best0, vals)[b]
    decreases |vals|
  {
    if |vals| > 0 {
      var n := |vals| - 1;
      var init := vals[..n];
      ImprovementsIncreasing(best0, init);
      var prev := Improvements(best0, init);
      var imp := Improvements(best0, vals);
      assert imp == prev + (if vals[n] < BestAfter(best0, init) then [n] else []);
      forall a, b | 0 <= a < b < |imp| ensures imp[a] < imp[b] {
        if b >= |prev| {
          assert imp[b] == n && imp[a] == prev[a];
        }
      }
    }
  }

  /** A checkpoint is written at epoch k exactly when that epoch's loss is
      strictly below the best of the epochs before it; the epochs come in order. */
  lemma ImprovementsExact(best0: real, vals: seq<real>)
    ensures forall k :: k in Improvements(best0, vals) <==> 0 <= k < |vals| && vals[k] < BestAfter(best0, vals[..k])
    ensures forall a, b :: 0 <= a < b < |Improvements(best0, vals)| ==>
      Improvements(best0, vals)[a] < Improvements(best0, vals)[b]
  {
    ImprovementsMembership(best0, vals);
    ImprovementsIncreasing(best0, vals);
  }

  /** The best loss changes across epoch k exactly when a checkpoint is written there. */
  lemma BestChangesOnlyAtImprovements(best0: real, vals: seq<real>, k: nat)
    requires k < |vals|
    ensures BestAfter(best0, vals[..k + 1]) != BestAfter(best0, vals[..k]) <==> k in Improvements(best0, vals)
  {
    ImprovementsExact(best0, vals);
    assert vals[..k + 1][..k] == vals[..k];
  }

  /** No checkpoint is ever written exactly when no epoch's loss is below
      the initial value, and then the best loss keeps that value. */
  lemma {:induction false} NoImprovementIff(best0: real, vals: seq<real>)
    ensures |Improvements(best0, vals)| == 0 <==> forall i :: 0 <= i < |vals| ==> best0 <= vals[i]
    ensures |Improvements(best0, vals)| == 0 ==> BestAfter(best0, vals) == best0
    decreases |vals|
  {
    if |vals| > 0 {
      var n := |vals| - 1;
      var init := vals[..n];
      NoImprovementIff(best0, init);
      forall i | 0 <= i < n ensures init[i] == vals[i] {
      }
      if |Improvements(best0, init)| == 0 {
        BestIsMinimum(best0, init);
      }
    }
  }

  /** Once a checkpoint has been written, the best loss is the loss of the
      last checkpointed epoch. */
  lemma {:induction false} BestIsLastImprovement(best0: real, vals: seq<real>)
    requires |Improvements(best0, vals)| > 0
    ensures var imp := Improvements(best0, vals);
      BestAfter(best0, vals) == vals[imp[|imp| - 1]]
    decreases |vals|
  {
    var n := |vals| - 1;
    var init := vals[..n];
    assert vals[..n] == init;
    if vals[n] >= BestAfter(best0, init) {
      BestIsLastImprovement(best0, init);
      var imp := Improvements(best0, init);
      assert init[imp[|imp| - 1]] == vals[imp[|imp| - 1]];
    }
  }

  /** The last checkpointed epoch is the first epoch reaching the minimum
      loss, and that minimum is below the initial value. */
  lemma LastImprovementIsFirstMinimum(best0: real, vals: seq<real>)
    requires |Improvements(best0, vals)| > 0
    ensures var imp := Improvements(best0, vals);
      var k := imp[|imp| - 1];
      BestAfter(best0, vals) == vals[k] && vals[k] < best0 &&
      (forall i :: 0 <= i < |vals| ==> vals[k] <= vals[i]) &&
      (forall j :: 0 <= j < k ==> vals[k] < vals[j])
  {
    var imp := Improvements(best0, vals);
    var k := imp[|imp| - 1];
    BestIsLastImprovement(best0, vals);
    BestIsMinimum(best0, vals);
    ImprovementSetsBest(best0, vals, k);
    assert vals[k] < best0 by {
      BestNonIncreasing(best0, vals, 0, k);
    }
    forall j | 0 <= j < k ensures vals[k] < vals[j] {
      BestIsMinimum(best0, vals[..k]);
      assert vals[..k][j] == vals[j];
    }
  }

  /** At a checkpointed epoch the best loss becomes that epoch's loss. */
  lemma ImprovementSetsBest(best0: real, vals: seq<real>, k: nat)
    requires k in Improvements(best0, vals)
    ensures k < |vals| && vals[k] < BestAfter(best0, vals[..k])
    ensures k < |vals| && BestAfter(best0, vals[..k + 1]) == vals[k]
  {
    ImprovementsExact(best0, vals);
    assert vals[..k + 1][..k] == vals[..k];
  }

  /** Each checkpoint holds a strictly smaller loss than the one it
      overwrites, and the first one is below the initial value. */
  lemma CheckpointLossesDecrease(best0: real, vals: seq<real>)
    ensures var imp := Improvements(best0, vals);
      (|imp| > 0 ==> vals[imp[0]] < best0) &&
      forall a, b :: 0 <= a < b < |imp| ==> vals[imp[b]] < vals[imp[a]]
  {
    var imp := Improvements(best0, vals);
    if |imp| > 0 {
      ImprovementSetsBest(best0, vals, imp[0]);
      BestNonIncreasing(best0, vals, 0, imp[0]);
    }
    forall a, b | 0 <= a < b < |imp| ensures vals[imp[b]] < vals[imp[a]] {
      var ka, kb := imp[a], imp[b];
      assert ka < kb by {
        ImprovementsExact(best0, vals);
      }
      ImprovementSetsBest(best0, vals, ka);
      ImprovementSetsBest(best0, vals, kb);
      BestNonIncreasing(best0, vals, ka + 1, kb);
    }
  }
}
