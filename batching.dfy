/** Positional batching (`split_into_batches` in gpthistory/helpers.py):
    consecutive slices of at most `batchSize` elements, cut by position only. */
module Batching {

  function Min(a: int, b: int): int
  {
    if a <= b then a else b
  }

  /** Concatenation of a sequence of sequences, first one first. */
  function Flatten<T>(ss: seq<seq<T>>): seq<T>
  {
    if ss == [] then [] else ss[0] + Flatten(ss[1..])
  }

  /** The batches of `a`: the first `batchSize` elements (or all of them, when
      fewer remain), then the batches of the rest. The generator in the source
      yields `a[i : i + batchSize]` for `i` in `range(0, len(a), batchSize)`;
      `SplitSlices` proves that this is the same sequence of slices. */
  function SplitIntoBatches<T>(a: seq<T>, batchSize: nat): seq<seq<T>>
    requires batchSize > 0
    decreases |a|
  {
    if |a| == 0 then []
    else
      var cut := Min(batchSize, |a|);
      [a[..cut]] + SplitIntoBatches(a[cut..], batchSize)
  }

  lemma {:induction false} FlattenAppend<T>(xs: seq<seq<T>>, ys: seq<seq<T>>)
    ensures Flatten(xs + ys) == Flatten(xs) + Flatten(ys)
    decreases |xs|
  {
    if xs == [] {
      assert xs + ys == ys;
    } else {
      assert (xs + ys)[1..] == xs[1..] + ys;
      FlattenAppend(xs[1..], ys);
    }
  }

  /** Appending one more sequence extends the concatenation by exactly it. */
  lemma FlattenSnoc<T>(xs: seq<seq<T>>, x: seq<T>)
    ensures Flatten(xs + [x]) == Flatten(xs) + x
  {
    FlattenAppend(xs, [x]);
    assert Flatten([x]) == x + Flatten([x][1..]);
  }

  /** Concatenating the batches gives back the input. */
  lemma {:induction false} FlattenSplit<T>(a: seq<T>, batchSize: nat)
    requires batchSize > 0
    ensures Flatten(SplitIntoBatches(a, batchSize)) == a
    decreases |a|
  {
    if |a| > 0 {
      var cut := Min(batchSize, |a|);
      var batches := SplitIntoBatches(a, batchSize);
      assert batches[0] == a[..cut];
      assert batches[1..] == SplitIntoBatches(a[cut..], batchSize);
      FlattenSplit(a[cut..], batchSize);
      assert a[..cut] + a[cut..] == a;
    }
  }

  /** Element `i` of sequence `k` sits at offset `|Flatten(xs[..k])| + i` of
      the concatenation. */
  lemma {:induction false} FlattenIndex<T>(xs: seq<seq<T>>, k: nat, i: nat)
    requires k < |xs| && i < |xs[k]|
    ensures |Flatten(xs[..k])| + i < |Flatten(xs)|
    ensures Flatten(xs)[|Flatten(xs[..k])| + i] == xs[k][i]
  {
    assert xs == xs[..k] + ([xs[k]] + xs[k + 1..]);
    FlattenAppend(xs[..k], [xs[k]] + xs[k + 1..]);
    FlattenAppend([xs[k]], xs[k + 1..]);
    FlattenSnoc([], xs[k]);
    assert [] + [xs[k]] == [xs[k]];
  }

  /** Two sequences of sequences of the same shape concatenate to the same
      length. */
  lemma {:induction false} FlattenSameShape<A, B>(xs: seq<seq<A>>, ys: seq<seq<B>>)
    requires |xs| == |ys|
    requires forall k :: 0 <= k < |xs| ==> |xs[k]| == |ys[k]|
    ensures |Flatten(xs)| == |Flatten(ys)|
    decreases |xs|
  {
    if xs != [] {
      FlattenSameShape(xs[1..], ys[1..]);
    }
  }

  lemma MulStep(j: int, k: int)
    ensures (j - 1) * k + k == j * k
  {
  }

  lemma MulMonotone(i: int, j: int, k: int)
    requires k > 0 && i < j
    ensures i * k < j * k
  {
  }

  /** The number of batches is `ceil(n / batchSize)`: none for an empty
      input, otherwise the least count whose capacity covers all `n`. */
  lemma {:induction false} SplitCount<T>(a: seq<T>, batchSize: nat)
    requires batchSize > 0
    ensures |a| == 0 <==> |SplitIntoBatches(a, batchSize)| == 0
    ensures |a| > 0 ==>
              var count := |SplitIntoBatches(a, batchSize)|;
              (count - 1) * batchSize < |a| <= count * batchSize
    decreases |a|
  {
    if |a| > 0 {
      var cut := Min(batchSize, |a|);
      SplitCount(a[cut..], batchSize);
      var count := |SplitIntoBatches(a, batchSize)|;
      MulStep(count, batchSize);
      if |a| > batchSize {
        MulStep(count - 1, batchSize);
      }
    }
  }

  /** Batch `j` is the slice `a[j*k .. j*k + k]`, its upper end clamped to
      `|a|` as Python's slicing clamps it, and it starts inside `a`: the
      recursive definition yields exactly what the range-stepping generator
      yields. */
  lemma {:induction false} SplitSlices<T>(a: seq<T>, batchSize: nat, j: nat)
    requires batchSize > 0
    requires j < |SplitIntoBatches(a, batchSize)|
    ensures j * batchSize < |a|
    ensures SplitIntoBatches(a, batchSize)[j] == a[j * batchSize .. Min(j * batchSize + batchSize, |a|)]
    decreases |a|
  {
    var cut := Min(batchSize, |a|);
    var rest := a[cut..];
    var tail := SplitIntoBatches(rest, batchSize);
    assert SplitIntoBatches(a, batchSize) == [a[..cut]] + tail;
    if j > 0 {
      SplitSlices(rest, batchSize, j - 1);
      var s := (j - 1) * batchSize;
      MulStep(j, batchSize);
      var hi := Min(s + batchSize, |rest|);
      SliceOfSuffix(a, batchSize, s, hi);
      assert tail[j - 1] == a[batchSize + s .. batchSize + hi];
    }
  }

  /** A slice of a suffix is a slice of the whole. */
  lemma SliceOfSuffix<T>(a: seq<T>, c: nat, lo: nat, hi: nat)
    requires c <= |a| && lo <= hi <= |a| - c
    ensures a[c..][lo..hi] == a[c + lo .. c + hi]
  {
  }

  /** Every batch is non-empty and at most `batchSize` long; only the last one
      may be shorter. */
  lemma SplitSizes<T>(a: seq<T>, batchSize: nat, j: nat)
    requires batchSize > 0
    requires j < |SplitIntoBatches(a, batchSize)|
    ensures 0 < |SplitIntoBatches(a, batchSize)[j]| <= batchSize
    ensures j + 1 < |SplitIntoBatches(a, batchSize)| ==> |SplitIntoBatches(a, batchSize)[j]| == batchSize
  {
    SplitSlices(a, batchSize, j);
    if j + 1 < |SplitIntoBatches(a, batchSize)| {
      SplitSlices(a, batchSize, j + 1);
      MulStep(j + 1, batchSize);
    }
  }

  /** The first `j` batches hold exactly the first `j * batchSize` elements
      (all of them, once `j` reaches the end). */
  lemma {:induction false} SplitPrefix<T>(a: seq<T>, batchSize: nat, j: nat)
    requires batchSize > 0
    requires j <= |SplitIntoBatches(a, batchSize)|
    ensures Flatten(SplitIntoBatches(a, batchSize)[..j]) == a[..Min(j * batchSize, |a|)]
    decreases |a|
  {
    var batches := SplitIntoBatches(a, batchSize);
    if j == 0 {
      assert batches[..0] == [];
    } else {
      var cut := Min(batchSize, |a|);
      var rest := a[cut..];
      assert batches[..j][1..] == SplitIntoBatches(rest, batchSize)[..j - 1];
      SplitPrefix(rest, batchSize, j - 1);
      var s := (j - 1) * batchSize;
      MulStep(j, batchSize);
      if |rest| == 0 {
        assert j == 1;
      } else {
        assert cut == batchSize;
      }
      assert a[..cut] + rest[..Min(s, |rest|)] == a[..Min(j * batchSize, |a|)];
    }
  }
}
