/**
 * `productStream`: the Cartesian product of two streams or collections as pairs, in the
 * order the nested `flatMap` produces them.
 */
module Products {
  import opened Tuples
  import opened HalfSplit

  /** `l2.stream().map(v2 -> Tuple.of(v1, v2))`: `v1` paired with each element of `s2`, in order. */
  function PairWith<T1, T2>(v1: T1, s2: seq<T2>): (r: seq<Tuple2<T1, T2>>)
    ensures |r| == |s2| && forall j :: 0 <= j < |s2| ==> r[j] == Tuple2(v1, s2[j])
  {
    if s2 == [] then [] else [Tuple2(v1, s2[0])] + PairWith(v1, s2[1..])
  }

  /** `s1.stream().map(v1 -> Tuple.of(v1, v2))`: each element of `s1` paired with `v2`, in order. */
  function PairTo<T1, T2>(s1: seq<T1>, v2: T2): (r: seq<Tuple2<T1, T2>>)
    ensures |r| == |s1| && forall i :: 0 <= i < |s1| ==> r[i] == Tuple2(s1[i], v2)
  {
    if s1 == [] then [] else [Tuple2(s1[0], v2)] + PairTo(s1[1..], v2)
  }

  /**
   * `productStream(s1, s2)` over streams, and the private `productStream(Stream, Collection)`:
   * `s1.flatMap(v1 -> s2.stream().map(v2 -> Tuple.of(v1, v2)))`, row by row.
   */
  function ProductRows<T1, T2>(s1: seq<T1>, s2: seq<T2>): seq<Tuple2<T1, T2>>
  {
    if s1 == [] then [] else PairWith(s1[0], s2) + ProductRows(s1[1..], s2)
  }

  /** The private `productStream(Collection, Stream)`: `s2.flatMap(v2 -> s1.stream().map(v1 -> Tuple.of(v1, v2)))`, column by column. */
  function ProductColumns<T1, T2>(s1: seq<T1>, s2: seq<T2>): seq<Tuple2<T1, T2>>
  {
    if s2 == [] then [] else PairTo(s1, s2[0]) + ProductColumns(s1, s2[1..])
  }

  /**
   * `productStream(c1, c2)` over collections: when `c1` reports fewer elements it is iterated
   * innermost (column by column), otherwise `c2` is (row by row).
   */
  function ProductOfCollections<T1, T2>(c1: seq<T1>, c2: seq<T2>): seq<Tuple2<T1, T2>>
  {
    if JavaSize(c1) < JavaSize(c2) then ProductColumns(c1, c2) else ProductRows(c1, c2)
  }

  lemma MulStep(a: int, m: int)
    ensures a * m == (a - 1) * m + m
  {
  }

  /** The product has `|s1| * |s2|` pairs, whichever way round it is built. */
  lemma {:induction false} ProductSizes<T1, T2>(s1: seq<T1>, s2: seq<T2>)
    ensures |ProductRows(s1, s2)| == |s1| * |s2|
    ensures |ProductColumns(s1, s2)| == |s1| * |s2|
    decreases |s1| + |s2|
  {
    if s1 != [] {
      ProductSizes(s1[1..], s2);
      MulStep(|s1|, |s2|);
    }
    if s2 != [] {
      ProductSizes(s1, s2[1..]);
      assert |s1| * |s2| == |s1| * (|s2| - 1) + |s1|;
    }
  }

  /** Row-major order: the pair `(s1[i], s2[j])` sits at position `i * |s2| + j`. */
  lemma {:induction false} ProductRowsAt<T1, T2>(s1: seq<T1>, s2: seq<T2>, i: nat, j: nat)
    requires i < |s1| && j < |s2|
    ensures i * |s2| + j < |ProductRows(s1, s2)|
    ensures ProductRows(s1, s2)[i * |s2| + j] == Tuple2(s1[i], s2[j])
  {
    if i > 0 {
      var m, k := |s2|, (i - 1) * |s2| + j;
      ProductRowsAt(s1[1..], s2, i - 1, j);
      MulStep(i, m);
      assert i * m + j == m + k;
      assert ProductRows(s1, s2)[m + k] == ProductRows(s1[1..], s2)[k];
      assert s1[1..][i - 1] == s1[i];
    }
  }

  /** Column-major order: the pair `(s1[i], s2[j])` sits at position `j * |s1| + i`. */
  lemma {:induction false} ProductColumnsAt<T1, T2>(s1: seq<T1>, s2: seq<T2>, i: nat, j: nat)
    requires i < |s1| && j < |s2|
    ensures j * |s1| + i < |ProductColumns(s1, s2)|
    ensures ProductColumns(s1, s2)[j * |s1| + i] == Tuple2(s1[i], s2[j])
  {
    if j > 0 {
      var m, k := |s1|, (j - 1) * |s1| + i;
      ProductColumnsAt(s1, s2[1..], i, j - 1);
      MulStep(j, m);
      assert j * m + i == m + k;
      assert ProductColumns(s1, s2)[m + k] == ProductColumns(s1, s2[1..])[k];
      assert s2[1..][j - 1] == s2[j];
    }
  }

  /** Building the columns of a product with no rows gives nothing. */
  lemma {:induction false} ColumnsOfNothing<T1, T2>(s1: seq<T1>, s2: seq<T2>)
    requires s1 == []
    ensures ProductColumns(s1, s2) == []
  {
    if s2 != [] {
      ColumnsOfNothing(s1, s2[1..]);
    }
  }

  /** The columns of a product hold the first row plus the columns of the remaining rows. */
  lemma {:induction false} ColumnsPeelRow<T1, T2>(s1: seq<T1>, s2: seq<T2>)
    requires s1 != []
    ensures multiset(ProductColumns(s1, s2)) == multiset(PairWith(s1[0], s2)) + multiset(ProductColumns(s1[1..], s2))
  {
    if s2 != [] {
      ColumnsPeelRow(s1, s2[1..]);
      assert PairTo(s1, s2[0]) == [Tuple2(s1[0], s2[0])] + PairTo(s1[1..], s2[0]);
      assert PairWith(s1[0], s2) == [Tuple2(s1[0], s2[0])] + PairWith(s1[0], s2[1..]);
    }
  }

  /** Both nesting orders produce the same pairs, each as often: one is a permutation of the other. */
  lemma {:induction false} ProductOrdersArePermutations<T1, T2>(s1: seq<T1>, s2: seq<T2>)
    ensures multiset(ProductColumns(s1, s2)) == multiset(ProductRows(s1, s2))
  {
    if s1 == [] {
      ColumnsOfNothing(s1, s2);
    } else {
      ColumnsPeelRow(s1, s2);
      ProductOrdersArePermutations(s1[1..], s2);
    }
  }

  /**
   * Whichever collection `productStream(c1, c2)` iterates innermost, it delivers every pair
   * `(c1[i], c2[j])` exactly once: a permutation of the row-major product.
   */
  lemma ProductOfCollectionsPairs<T1, T2>(c1: seq<T1>, c2: seq<T2>)
    ensures multiset(ProductOfCollections(c1, c2)) == multiset(ProductRows(c1, c2))
    ensures |ProductOfCollections(c1, c2)| == |c1| * |c2|
  {
    ProductOrdersArePermutations(c1, c2);
    ProductSizes(c1, c2);
  }

  /**
   * Where the collection version puts the pair `(c1[i], c2[j])`: when `c1` reports fewer
   * elements, `c2` drives the outer loop and the pair sits at `j * |c1| + i`; otherwise `c1`
   * drives it and the pair sits at `i * |c2| + j`.
   */
  lemma ProductOfCollectionsAt<T1, T2>(c1: seq<T1>, c2: seq<T2>, i: nat, j: nat)
    requires i < |c1| && j < |c2|
    ensures var k := if JavaSize(c1) < JavaSize(c2) then j * |c1| + i else i * |c2| + j;
            k < |ProductOfCollections(c1, c2)| && ProductOfCollections(c1, c2)[k] == Tuple2(c1[i], c2[j])
  {
    if JavaSize(c1) < JavaSize(c2) {
      ProductColumnsAt(c1, c2, i, j);
    } else {
      ProductRowsAt(c1, c2, i, j);
    }
  }
}
