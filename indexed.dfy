/** `streamWithIndex`: the elements of a collection zipped with a counting `int` index. */
module IndexedStreams {
  import opened Wrappers
  import opened Characteristics
  import opened Tuples
  import opened Sources
  import opened Zipers

  /**
   * The first `n` values of `IntStream.iterate(start, i -> i + 1)`: each is the previous one
   * plus one in Java `int` arithmetic, so the count wraps from `Integer.MAX_VALUE` to `Integer.MIN_VALUE`.
   */
  function Iterate(start: int, n: nat): seq<int>
    decreases n
  {
    if n == 0 then [] else [start] + Iterate(WrapInt(start + 1), n - 1)
  }

  /** Wrapping once more after an addition does not change the wrapped sum. */
  lemma WrapIntAdd(x: int, k: int)
    ensures WrapInt(WrapInt(x) + k) == WrapInt(x + k)
  {
    var m := 0x1_0000_0000;
    var q := (x + 0x8000_0000) / m;
    assert WrapInt(x) == x - q * m;
    assert WrapInt(x) + k + 0x8000_0000 == (x + k + 0x8000_0000) - q * m;
  }

  /** A Java `int` is its own wrap. */
  lemma WrapIntInRange(x: int)
    requires -0x8000_0000 <= x <= INT_MAX
    ensures WrapInt(x) == x
  {
  }

  /** The `i`-th value of the iteration is `start + i` in Java `int` arithmetic. */
  lemma {:induction false} IterateAt(start: int, n: nat, i: nat)
    requires -0x8000_0000 <= start <= INT_MAX && i < n
    ensures |Iterate(start, n)| == n && Iterate(start, n)[i] == WrapInt(start + i)
    decreases n
  {
    if i == 0 {
      WrapIntInRange(start);
      IterateLength(start, n);
    } else {
      var next := WrapInt(start + 1);
      IterateAt(next, n - 1, i - 1);
      assert Iterate(start, n)[i] == Iterate(next, n - 1)[i - 1] == WrapInt(next + (i - 1));
      WrapIntAdd(start + 1, i - 1);
    }
  }

  lemma {:induction false} IterateLength(start: int, n: nat)
    ensures |Iterate(start, n)| == n
    decreases n
  {
    if n > 0 {
      IterateLength(WrapInt(start + 1), n - 1);
    }
  }

  /**
   * The characteristics of `IntStream.iterate(..).boxed()`'s spliterator: the `boxed` stage wraps
   * the source, and the wrapper reports only the stream flag ORDERED; not sized.
   */
  const ITERATE_FLAGS: bv32 := ORDERED

  /** The characteristics of a collection's own spliterator: SIZED and SUBSIZED. */
  const COLLECTION_FLAGS: bv32 := SIZED | SUBSIZED

  /**
   * `streamWithIndex(collection, start)`: `stream(collection.stream(), IntStream.iterate(start, i -> i + 1).boxed())`.
   * The index stream is endless; the zip reads one index per element, so only the first
   * `|collection|` are modelled. The result pairs element `i` with `start + i` (as a Java `int`)
   * and reports no size, since the index stream is not SIZED.
   */
  method StreamWithIndex<E>(collection: seq<E>, start: int) returns (z: Tuple2Ziper<E, int>, size: Option<int>)
    requires -0x8000_0000 <= start <= INT_MAX
    ensures fresh(z) && size == None
    ensures |z.Output()| == |collection|
    ensures forall i :: 0 <= i < |collection| ==> z.Output()[i] == Tuple2(collection[i], WrapInt(start + i))
  {
    var indices := Iterate(start, |collection|);
    var c;
    z, c, size := StreamOfSources2(Leaf(collection, COLLECTION_FLAGS), Leaf(indices, ITERATE_FLAGS));
    IterateLength(start, |collection|);
    forall i | 0 <= i < |collection|
      ensures z.Output()[i] == Tuple2(collection[i], WrapInt(start + i))
    {
      IterateAt(start, |collection|, i);
    }
  }

  /** `streamWithIndex(collection)`: indices from 0. */
  method StreamWithIndexFromZero<E>(collection: seq<E>) returns (z: Tuple2Ziper<E, int>, size: Option<int>)
    ensures fresh(z) && size == None
    ensures |z.Output()| == |collection|
    ensures forall i :: 0 <= i < |collection| ==> z.Output()[i] == Tuple2(collection[i], WrapInt(i))
  {
    z, size := StreamWithIndex(collection, 0);
  }

  /** The documented example: `["A", "B", "C"]` from 2 gives `("A", 2), ("B", 3), ("C", 4)`. */
  lemma IndexExample()
    ensures Zip2(["A", "B", "C"], Iterate(2, 3)) == [Tuple2("A", 2), Tuple2("B", 3), Tuple2("C", 4)]
  {
    WrapIntInRange(3);
    WrapIntInRange(4);
    WrapIntInRange(5);
    assert Iterate(2, 3) == [2, 3, 4];
  }
}
