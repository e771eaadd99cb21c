/** `chunked` from both utility modules, and the batch arithmetic of the
    movie-details job, which walks the same `range(0, n, batch_size)` slices. */
module Batching {

  /** Concatenation of a sequence of batches. */
  function Flatten<T>(batches: seq<seq<T>>): seq<T> {
    if batches == [] then [] else batches[0] + Flatten(batches[1..])
  }

  lemma {:induction false} FlattenAppend<T>(a: seq<seq<T>>, b: seq<seq<T>>)
    ensures Flatten(a + b) == Flatten(a) + Flatten(b)
  {
    if a == [] {
      assert a + b == b;
    } else {
      assert (a + b)[1..] == a[1..] + b;
      FlattenAppend(a[1..], b);
    }
  }

  function Min(a: int, b: int): int {
    if a <= b then a else b
  }

  /** The slices `xs[i:i+size]` for `i` in `range(start, len(xs), size)`. */
  function ChunksFrom<T>(xs: seq<T>, size: nat, start: nat): seq<seq<T>>
    requires size > 0
    decreases |xs| - start
  {
    if start >= |xs| then []
    else [xs[start .. Min(start + size, |xs|)]] + ChunksFrom(xs, size, start + size)
  }

  /** `chunked(iterable, batch_size)` with the generator collected into a list. */
  function Chunked<T>(xs: seq<T>, size: nat): seq<seq<T>>
    requires size > 0
  {
    ChunksFrom(xs, size, 0)
  }

  /** `(num_movies + batch_size - 1) // batch_size`, the batch count the
      movie-details job announces. */
  function NumBatches(n: nat, size: nat): nat
    requires size > 0
  {
    (n + size - 1) / size
  }

  lemma {:induction false} MulAtLeast(size: nat, k: int)
    requires k >= 1
    ensures size * k >= size
    decreases k
  {
    if k > 1 {
      MulAtLeast(size, k - 1);
      assert size * k == size * (k - 1) + size;
    }
  }

  lemma MulBound(size: nat, k: int)
    requires size > 0 && -(size as int) < size * k < size
    ensures k == 0
  {
    if k >= 1 {
      MulAtLeast(size, k);
    } else if k <= -1 {
      MulAtLeast(size, -k);
    }
  }

  /** Adding the divisor adds one to the (Euclidean) quotient. */
  lemma DivStep(x: int, size: nat)
    requires size > 0
    ensures (x + size) / size == x / size + 1
  {
    var a := x / size;
    var b := (x + size) / size;
    var r1 := x % size;
    var r2 := (x + size) % size;
    assert x == size * a + r1;
    assert x + size == size * b + r2;
    var k := b - a - 1;
    assert size * k == size * b - size * a - size;
    MulBound(size, k);
  }

  lemma {:induction false} ChunksFromFlatten<T>(xs: seq<T>, size: nat, start: nat)
    requires size > 0 && start <= |xs|
    ensures Flatten(ChunksFrom(xs, size, start)) == xs[start..]
    decreases |xs| - start
  {
    var cs := ChunksFrom(xs, size, start);
    if start == |xs| {
    } else if start + size >= |xs| {
      assert Min(start + size, |xs|) == |xs|;
      assert cs[1..] == ChunksFrom(xs, size, start + size) == [];
    } else {
      ChunksFromFlatten(xs, size, start + size);
      assert cs[1..] == ChunksFrom(xs, size, start + size);
      assert xs[start..] == xs[start .. start + size] + xs[start + size ..];
    }
  }

  /** A numerator below the divisor has quotient zero. */
  lemma DivSmall(x: int, size: nat)
    requires size > 0 && 0 <= x < size
    ensures x / size == 0
  {
    var q := x / size;
    var r := x % size;
    assert x == size * q + r;
    MulBound(size, q);
  }

  lemma {:induction false} ChunksFromCount<T>(xs: seq<T>, size: nat, start: nat)
    requires size > 0 && start <= |xs|
    ensures |ChunksFrom(xs, size, start)| == (|xs| - start + size - 1) / size
    decreases |xs| - start
  {
    var n := |xs| - start;
    if n == 0 {
      DivSmall(size - 1, size);
    } else {
      var cs := ChunksFrom(xs, size, start);
      var rest := ChunksFrom(xs, size, start + size);
      assert |cs| == 1 + |rest|;
      DivStep(n - 1, size);
      assert (n + size - 1) / size == (n - 1) / size + 1;
      if n <= size {
        assert rest == [];
        DivSmall(n - 1, size);
      } else {
        ChunksFromCount(xs, size, start + size);
        assert |rest| == (n - 1) / size;
      }
    }
  }

  lemma {:induction false} ChunksFromSizes<T>(xs: seq<T>, size: nat, start: nat)
    requires size > 0
    ensures forall k :: 0 <= k < |ChunksFrom(xs, size, start)| ==> 0 < |ChunksFrom(xs, size, start)[k]| <= size
    ensures forall k :: 0 <= k < |ChunksFrom(xs, size, start)| - 1 ==> |ChunksFrom(xs, size, start)[k]| == size
    decreases |xs| - start
  {
    var cs := ChunksFrom(xs, size, start);
    if start < |xs| {
      var rest := ChunksFrom(xs, size, start + size);
      ChunksFromSizes(xs, size, start + size);
      assert cs[1..] == rest;
      if rest != [] {
        assert start + size < |xs|;
        assert |cs[0]| == size;
      }
    }
  }

  /** Concatenating the chunks gives back the input exactly, in order. */
  lemma ChunkedFlattens<T>(xs: seq<T>, size: nat)
    requires size > 0
    ensures Flatten(Chunked(xs, size)) == xs
  {
    ChunksFromFlatten(xs, size, 0);
  }

  /** There are `ceil(n / size)` chunks: the loop of the movie-details job runs
      exactly the number of batches it announces. */
  lemma ChunkedCount<T>(xs: seq<T>, size: nat)
    requires size > 0
    ensures |Chunked(xs, size)| == NumBatches(|xs|, size)
  {
    ChunksFromCount(xs, size, 0);
  }

  /** Every chunk is non-empty and at most `size` long; all but the last are
      exactly `size` long. */
  lemma ChunkedSizes<T>(xs: seq<T>, size: nat)
    requires size > 0
    ensures forall k :: 0 <= k < |Chunked(xs, size)| ==> 0 < |Chunked(xs, size)[k]| <= size
    ensures forall k :: 0 <= k < |Chunked(xs, size)| - 1 ==> |Chunked(xs, size)[k]| == size
  {
    ChunksFromSizes(xs, size, 0);
  }
}
