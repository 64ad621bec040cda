/** The batch collator `ClassificationBatchFunction`: wraps every token
    sequence of a batch in boundary markers, pads or tail-truncates it to
    the configured cap, derives the mask and passes the labels through. */
module Collator {
  import opened Errors
  import opened Integers

  /** The collator's configuration, fixed once it is built. */
  datatype BatchFunction = BatchFunction(maxLen: int, padIdx: int, clsIdx: int, sepIdx: int)

  /** One dataset sample: its token ids and its label index. */
  datatype Sample = Sample(tokens: seq<int>, labelId: int)

  /** The three tensors handed to the model, as rows of integers. */
  datatype Batch = Batch(tokens: seq<seq<int>>, masks: seq<seq<int>>, labels: seq<int>)

  /** A boundary marker that is not given takes the pad id. */
  function NewBatchFunction(maxLen: int, padIdx: int, clsIdx: Option<int>, sepIdx: Option<int>): (c: BatchFunction)
    ensures c.maxLen == maxLen && c.padIdx == padIdx
    ensures clsIdx.None? ==> c.clsIdx == padIdx
    ensures clsIdx.Some? ==> c.clsIdx == clsIdx.value
    ensures sepIdx.None? ==> c.sepIdx == padIdx
    ensures sepIdx.Some? ==> c.sepIdx == sepIdx.value
  {
    BatchFunction(maxLen, padIdx,
                  match clsIdx case Some(v) => v case None => padIdx,
                  match sepIdx case Some(v) => v case None => padIdx)
  }

  function Repeat(x: int, n: nat): (r: seq<int>)
    ensures |r| == n && forall i :: 0 <= i < n ==> r[i] == x
  {
    seq(n, _ => x)
  }

  /** Python's `s[start:]`: a negative start counts from the end, and a
      start beyond either end is clamped. */
  function SliceFrom(s: seq<int>, start: int): (r: seq<int>)
    ensures |r| == (if start >= 0 then Max(0, |s| - start) else Min(|s|, -start))
    ensures r == s[|s| - |r|..]
  {
    if start >= 0 then s[Min(start, |s|)..]
    else s[Max(0, |s| + start)..]
  }

  /** `pad`: right-pad with the pad id up to the cap when the sample is
      shorter, otherwise keep `sample[-max_len:]`. */
  function Padded(c: BatchFunction, sample: seq<int>): (r: seq<int>)
    ensures c.maxLen >= 1 ==> |r| == c.maxLen
    ensures |sample| < c.maxLen ==>
      r[..|sample|] == sample && forall i :: |sample| <= i < |r| ==> r[i] == c.padIdx
    ensures 1 <= c.maxLen <= |sample| ==> r == sample[|sample| - c.maxLen..]
    ensures c.maxLen == 0 ==> r == sample
    ensures c.maxLen < 0 ==> r == sample[Min(-c.maxLen, |sample|)..]
  {
    var diff := c.maxLen - |sample|;
    if diff > 0 then sample + Repeat(c.padIdx, diff)
    else SliceFrom(sample, -c.maxLen)
  }

  /** The marker-wrapped sequence the comprehension hands to `pad`. */
  function Wrapped(c: BatchFunction, t: seq<int>): seq<int>
  {
    [c.clsIdx] + t + [c.sepIdx]
  }

  /** One row of the token tensor. */
  function Row(c: BatchFunction, t: seq<int>): seq<int>
  {
    Padded(c, Wrapped(c, t))
  }

  /** `ones_like(tokens).masked_fill(tokens == pad_idx, pad_idx)` on one row. */
  function Mask(c: BatchFunction, row: seq<int>): (m: seq<int>)
    ensures |m| == |row|
    ensures forall j :: 0 <= j < |row| ==> m[j] == (if row[j] == c.padIdx then c.padIdx else 1)
  {
    seq(|row|, j requires 0 <= j < |row| => if row[j] == c.padIdx then c.padIdx else 1)
  }

  /** The conventional 0/1 attention mask: 0 on padding, 1 elsewhere. */
  function BinaryMask(c: BatchFunction, row: seq<int>): (m: seq<int>)
    ensures |m| == |row|
    ensures forall j :: 0 <= j < |row| ==> (m[j] == 0 <==> row[j] == c.padIdx) && 0 <= m[j] <= 1
  {
    seq(|row|, j requires 0 <= j < |row| => if row[j] == c.padIdx then 0 else 1)
  }

  function Rows(c: BatchFunction, batch: seq<Sample>): (rows: seq<seq<int>>)
    ensures |rows| == |batch|
    ensures forall i :: 0 <= i < |batch| ==> rows[i] == Row(c, batch[i].tokens)
  {
    seq(|batch|, i requires 0 <= i < |batch| => Row(c, batch[i].tokens))
  }

  /** `torch.tensor` accepts a list of rows only when all rows have one length. */
  predicate Rectangular(rows: seq<seq<int>>)
  {
    forall i :: 0 <= i < |rows| ==> |rows[i]| == |rows[0]|
  }

  /** The length of the longest sample capped at `max_len`; the source
      computes it per batch but never uses it. */
  function LocalMaxLen(c: BatchFunction, batch: seq<Sample>): int
    requires |batch| > 0
    decreases |batch|
  {
    if |batch| == 1 then Min(c.maxLen, |batch[0].tokens|)
    else Max(LocalMaxLen(c, batch[..|batch| - 1]), Min(c.maxLen, |batch[|batch| - 1].tokens|))
  }

  /** `__call__`: an empty batch fails to unpack, and rows of different
      lengths fail to become a tensor; otherwise one row, one mask row and
      one label per sample, in order. */
  function Collate(c: BatchFunction, batch: seq<Sample>): (r: Result<Batch>)
    ensures r.Ok? <==> |batch| > 0 && Rectangular(Rows(c, batch))
    ensures c.maxLen >= 1 ==> (r.Ok? <==> |batch| > 0)
    ensures r.Err? ==> r.failure == ValueError
    ensures r.Ok? ==>
      |r.value.tokens| == |batch| && |r.value.masks| == |batch| && |r.value.labels| == |batch|
    ensures r.Ok? ==> forall i :: 0 <= i < |batch| ==>
      r.value.tokens[i] == Row(c, batch[i].tokens) && r.value.labels[i] == batch[i].labelId
    ensures r.Ok? && c.maxLen >= 1 ==> forall i :: 0 <= i < |batch| ==> |r.value.tokens[i]| == c.maxLen
    ensures r.Ok? ==> forall i :: 0 <= i < |batch| ==> |r.value.masks[i]| == |r.value.tokens[i]|
    ensures r.Ok? ==> forall i, j :: 0 <= i < |batch| && 0 <= j < |r.value.tokens[i]| ==>
      r.value.masks[i][j] == (if r.value.tokens[i][j] == c.padIdx then c.padIdx else 1)
  {
    if |batch| == 0 then Err(ValueError)
    else
      var unused := LocalMaxLen(c, batch);
      var rows := Rows(c, batch);
      if !Rectangular(rows) then Err(ValueError)
      else
        Ok(Batch(rows,
                 seq(|rows|, i requires 0 <= i < |rows| => Mask(c, rows[i])),
                 seq(|batch|, i requires 0 <= i < |batch| => batch[i].labelId)))
  }

  /** A sample two or more ids shorter than the cap is `[cls] + t + [sep]`
      followed by pad ids up to the cap. */
  lemma ShortRow(c: BatchFunction, t: seq<int>)
    requires |t| + 2 < c.maxLen
    ensures Row(c, t) == [c.clsIdx] + t + [c.sepIdx] + Repeat(c.padIdx, c.maxLen - |t| - 2)
  {
    var w := Wrapped(c, t);
    var r := Row(c, t);
    var want := w + Repeat(c.padIdx, c.maxLen - |t| - 2);
    assert |r| == |want|;
    forall j | 0 <= j < |r| ensures r[j] == want[j] {
      if j < |w| {
        assert r[j] == r[..|w|][j];
      }
    }
  }

  /** A sample that fills the cap keeps its last `max_len` ids, so the row
      ends with `sep`; when it overflows the cap, `cls` is the id that goes. */
  lemma LongRow(c: BatchFunction, t: seq<int>)
    requires 1 <= c.maxLen <= |t| + 2
    ensures Row(c, t) == Wrapped(c, t)[|t| + 2 - c.maxLen..]
    ensures Row(c, t)[c.maxLen - 1] == c.sepIdx
    ensures c.maxLen < |t| + 2 ==> Row(c, t) == (t + [c.sepIdx])[|t| + 1 - c.maxLen..]
  {
    var w := Wrapped(c, t);
    assert w == [c.clsIdx] + (t + [c.sepIdx]);
    if c.maxLen < |t| + 2 {
      assert w[|t| + 2 - c.maxLen..] == (t + [c.sepIdx])[|t| + 1 - c.maxLen..];
    }
  }

  /** With a zero cap, `sample[-0:]` is the whole sample: rows keep their
      natural lengths and the batch collates only if all samples are equally long. */
  lemma ZeroCapKeepsWholeSamples(c: BatchFunction, batch: seq<Sample>)
    requires c.maxLen == 0 && |batch| > 0
    ensures forall i :: 0 <= i < |batch| ==> Row(c, batch[i].tokens) == Wrapped(c, batch[i].tokens)
    ensures Collate(c, batch).Ok? <==>
      forall i :: 0 <= i < |batch| ==> |batch[i].tokens| == |batch[0].tokens|
  {
    var rows := Rows(c, batch);
    if forall i :: 0 <= i < |batch| ==> |batch[i].tokens| == |batch[0].tokens| {
      forall i | 0 <= i < |batch| ensures |rows[i]| == |rows[0]| {
        assert |rows[i]| == |batch[i].tokens| + 2;
      }
    } else {
      var i :| 0 <= i < |batch| && |batch[i].tokens| != |batch[0].tokens|;
      assert |rows[i]| != |rows[0]|;
    }
  }

  /** The mask agrees with the 0/1 mask exactly when the pad id is 0 or the
      row holds no pad id: with any other pad id, padding is not marked 0. */
  lemma MaskIsBinaryIff(c: BatchFunction, row: seq<int>)
    ensures Mask(c, row) == BinaryMask(c, row) <==> (c.padIdx == 0 || c.padIdx !in row)
  {
    if c.padIdx != 0 && c.padIdx in row {
      var j :| 0 <= j < |row| && row[j] == c.padIdx;
      assert Mask(c, row)[j] != BinaryMask(c, row)[j];
    } else {
      assert forall j :: 0 <= j < |row| ==> Mask(c, row)[j] == BinaryMask(c, row)[j];
    }
  }

  /** When `cls` and `sep` are left unset they are the pad id, so in a short
      row the two marker positions are masked just like the padding. */
  lemma DefaultMarkersAreMasked(maxLen: int, padIdx: int, t: seq<int>)
    requires |t| + 2 <= maxLen
    ensures var c := NewBatchFunction(maxLen, padIdx, None, None);
      var m := Mask(c, Row(c, t));
      |m| == maxLen && m[0] == padIdx && m[|t| + 1] == padIdx
  {
    var c := NewBatchFunction(maxLen, padIdx, None, None);
    var r := Row(c, t);
    var w := Wrapped(c, t);
    if |t| + 2 < maxLen {
      assert r[..|w|] == w;
      assert r[0] == r[..|w|][0] && r[|t| + 1] == r[..|w|][|t| + 1];
    } else {
      LongRow(c, t);
    }
  }

  /** A worked example: pad 0, `cls` 1, `sep` 2, cap 6. */
  lemma WorkedExample()
    ensures Collate(NewBatchFunction(6, 0, Some(1), Some(2)),
                    [Sample([5, 6, 7], 0), Sample([8, 9], 1)])
         == Ok(Batch([[1, 5, 6, 7, 2, 0], [1, 8, 9, 2, 0, 0]],
                     [[1, 1, 1, 1, 1, 0], [1, 1, 1, 1, 0, 0]],
                     [0, 1]))
  {
    var c := NewBatchFunction(6, 0, Some(1), Some(2));
    ShortRow(c, [5, 6, 7]);
    ShortRow(c, [8, 9]);
    assert Row(c, [5, 6, 7]) == [1, 5, 6, 7, 2, 0];
    assert Row(c, [8, 9]) == [1, 8, 9, 2, 0, 0];
    assert Mask(c, [1, 5, 6, 7, 2, 0]) == [1, 1, 1, 1, 1, 0];
    assert Mask(c, [1, 8, 9, 2, 0, 0]) == [1, 1, 1, 1, 0, 0];
    var batch := [Sample([5, 6, 7], 0), Sample([8, 9], 1)];
    var rows := Rows(c, batch);
    assert rows == [[1, 5, 6, 7, 2, 0], [1, 8, 9, 2, 0, 0]];
    assert Rectangular(rows);
    var masks := seq(|rows|, i requires 0 <= i < |rows| => Mask(c, rows[i]));
    assert masks == [[1, 1, 1, 1, 1, 0], [1, 1, 1, 1, 0, 0]];
    var labels := seq(|batch|, i requires 0 <= i < |batch| => batch[i].labelId);
    assert labels == [0, 1];
    assert Collate(c, batch) == Ok(Batch(rows, masks, labels));
  }

  /** The Python list object that `pad` receives and may extend in place. */
  class IntList {
    var items: seq<int>

    constructor (items: seq<int>)
      ensures this.items == items
    {
      this.items := items;
    }
  }

  /** `pad` on a list object: a short list is extended in place and returned
      itself; otherwise the slice is a new list and the argument is untouched. */
  method Pad(c: BatchFunction, sample: IntList) returns (r: IntList)
    modifies sample
    ensures r.items == Padded(c, old(sample.items))
    ensures |old(sample.items)| < c.maxLen ==> r == sample
    ensures |old(sample.items)| >= c.maxLen ==> fresh(r) && sample.items == old(sample.items)
  {
    var diff := c.maxLen - |sample.items|;
    if diff > 0 {
      sample.items := sample.items + Repeat(c.padIdx, diff);
      r := sample;
    } else {
      r := new IntList(SliceFrom(sample.items, -c.maxLen));
    }
  }
}
