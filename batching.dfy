/**
 * The batch loader's ordering semantics: the usable (path, id) pairs are
 * cut, in order, into chunks of the batch size, and the inference loop
 * pulls `ceil(N / batch_size)` of them.
 */
module Batching {

  /** `int(np.ceil(n / b))`: the number of batches the inference loop pulls. */
  function NumBatches(n: nat, b: nat): nat
    requires b >= 1
  {
    (n + b - 1) / b
  }

  /** The batch count is the ceiling of n / b: enough batches for n items, and none to spare. */
  lemma NumBatchesIsCeiling(n: nat, b: nat)
    requires b >= 1
    ensures NumBatches(n, b) * b >= n
    ensures NumBatches(n, b) > 0 ==> (NumBatches(n, b) - 1) * b < n
  {
  }

  lemma MulMonotone(x: int, y: int, b: nat)
    requires x <= y
    ensures x * b <= y * b
  {
    assert y * b - x * b == (y - x) * b;
  }

  /** `ceil(n / b)` is the only count of batches that holds `n` items with no batch to spare. */
  lemma NumBatchesUnique(n: nat, b: nat, r: nat)
    requires b >= 1
    requires r * b >= n && (r > 0 ==> (r - 1) * b < n)
    ensures r == NumBatches(n, b)
  {
    var q := NumBatches(n, b);
    NumBatchesIsCeiling(n, b);
    if r < q {
      MulMonotone(r, q - 1, b);
    } else if q < r {
      MulMonotone(q, r - 1, b);
    }
  }

  /** `n` items, `n > b`, need one batch more than `n - b` items. */
  lemma NumBatchesStep(n: nat, b: nat)
    requires b >= 1 && n > b
    ensures NumBatches(n, b) == NumBatches(n - b, b) + 1
  {
    var r := NumBatches(n - b, b);
    NumBatchesIsCeiling(n - b, b);
    assert (r + 1) * b == r * b + b;
    if r > 0 {
      assert r * b == (r - 1) * b + b;
    }
    NumBatchesUnique(n, b, r + 1);
  }

  /** The batches of `items`, in order: all of size `b` but the last, which may be shorter. */
  function Chunks<T>(items: seq<T>, b: nat): seq<seq<T>>
    requires b >= 1
    decreases |items|
  {
    if |items| == 0 then []
    else if |items| <= b then [items]
    else [items[..b]] + Chunks(items[b..], b)
  }

  /** The concatenation of a sequence of batches. */
  function Flatten<T>(batches: seq<seq<T>>): seq<T>
  {
    if batches == [] then []
    else Flatten(batches[..|batches| - 1]) + batches[|batches| - 1]
  }

  /** Pulling one more batch appends its items. */
  lemma FlattenStep<T>(batches: seq<seq<T>>, i: nat)
    requires i < |batches|
    ensures Flatten(batches[..i + 1]) == Flatten(batches[..i]) + batches[i]
  {
    assert batches[..i + 1][..i] == batches[..i];
  }

  lemma {:induction false} FlattenCons<T>(x: seq<T>, batches: seq<seq<T>>)
    ensures Flatten([x] + batches) == x + Flatten(batches)
    decreases |batches|
  {
    if batches != [] {
      var init := batches[..|batches| - 1];
      FlattenCons(x, init);
      assert ([x] + batches)[..|batches|] == [x] + init;
    }
  }

  /** There are `ceil(N / b)` batches, so none when there are no items. */
  lemma {:induction false} ChunkCount<T>(items: seq<T>, b: nat)
    requires b >= 1
    ensures |Chunks(items, b)| == NumBatches(|items|, b)
    ensures |items| == 0 <==> |Chunks(items, b)| == 0
    decreases |items|
  {
    if |items| > b {
      ChunkCount(items[b..], b);
      NumBatchesStep(|items|, b);
    }
  }

  /**
   * Every batch but the last holds exactly `b` items; the last holds the
   * remaining `N - b * (batches - 1)`, between 1 and `b`.
   */
  lemma {:induction false} ChunkSizes<T>(items: seq<T>, b: nat)
    requires b >= 1
    ensures var cs := Chunks(items, b);
      && (forall i :: 0 <= i < |cs| - 1 ==> |cs[i]| == b)
      && (|cs| > 0 ==> |cs[|cs| - 1]| == |items| - b * (|cs| - 1) && 1 <= |cs[|cs| - 1]| <= b)
    decreases |items|
  {
    if |items| > b {
      var rest := Chunks(items[b..], b);
      ChunkSizes(items[b..], b);
      ChunkCount(items[b..], b);
      var m := |rest| - 1;
      assert m >= 0;
      assert b * (m + 1) == b * m + b;
    }
  }

  /** Pulling every batch and concatenating them gives back the items, in order. */
  lemma {:induction false} FlattenChunks<T>(items: seq<T>, b: nat)
    requires b >= 1
    ensures Flatten(Chunks(items, b)) == items
    decreases |items|
  {
    if |items| == 0 {
    } else if |items| <= b {
      assert Flatten([items]) == Flatten([]) + items;
    } else {
      FlattenChunks(items[b..], b);
      FlattenCons(items[..b], Chunks(items[b..], b));
      assert items[..b] + items[b..] == items;
    }
  }

  /**
   * The batch size does not change what reaches the consumer: batches of
   * size 1, of size N, or any size in between flatten to the same sequence.
   */
  lemma BatchSizeIrrelevant<T>(items: seq<T>, b1: nat, b2: nat)
    requires b1 >= 1 && b2 >= 1
    ensures Flatten(Chunks(items, b1)) == Flatten(Chunks(items, b2))
  {
    FlattenChunks(items, b1);
    FlattenChunks(items, b2);
  }
}
