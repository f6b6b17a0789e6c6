/**
 * The comparators `comparatorOf` builds: lexicographic order over the components, each
 * compared by its own natural order (passed in here as a function).
 */
module Comparators {
  import opened Tuples

  /** The lexicographic combination of component comparisons: the first result that is not 0. */
  function FirstNonZero(cs: seq<int>): int
  {
    if cs == [] then 0 else if cs[0] != 0 then cs[0] else FirstNonZero(cs[1..])
  }

  /** Two tuples compare equal exactly when every component does. */
  lemma {:induction false} FirstNonZeroIsZero(cs: seq<int>)
    ensures FirstNonZero(cs) == 0 <==> forall i :: 0 <= i < |cs| ==> cs[i] == 0
  {
    if cs != [] {
      FirstNonZeroIsZero(cs[1..]);
      if cs[0] == 0 {
        assert forall i :: 0 < i < |cs| ==> cs[i] == cs[1..][i - 1];
      }
    }
  }

  /** Otherwise the result is that of the first component that differs; the ones before it compare equal. */
  lemma {:induction false} FirstNonZeroIsFirst(cs: seq<int>)
    requires FirstNonZero(cs) != 0
    ensures exists k :: 0 <= k < |cs| && cs[k] == FirstNonZero(cs) && forall i :: 0 <= i < k ==> cs[i] == 0
  {
    if cs[0] == 0 {
      FirstNonZeroIsFirst(cs[1..]);
      var k :| 0 <= k < |cs[1..]| && cs[1..][k] == FirstNonZero(cs[1..]) && forall i :: 0 <= i < k ==> cs[1..][i] == 0;
      assert cs[k + 1] == FirstNonZero(cs);
      assert forall i :: 0 < i < k + 1 ==> cs[i] == cs[1..][i - 1];
    } else {
      assert cs[0] == FirstNonZero(cs);
    }
  }

  function Sign(x: int): int { if x < 0 then -1 else if x > 0 then 1 else 0 }

  /**
   * If every component comparison is antisymmetric (`sgn(compare(x, y)) == -sgn(compare(y, x))`),
   * so is the lexicographic combination.
   */
  lemma {:induction false} FirstNonZeroAntisymmetric(cs: seq<int>, ds: seq<int>)
    requires |cs| == |ds| && forall i :: 0 <= i < |cs| ==> Sign(cs[i]) == -Sign(ds[i])
    ensures Sign(FirstNonZero(cs)) == -Sign(FirstNonZero(ds))
  {
    if cs != [] && cs[0] == 0 {
      assert ds[0] == 0;
      FirstNonZeroAntisymmetric(cs[1..], ds[1..]);
    }
  }

  /** `comparatorOf` for `Tuple2`: the components' `compareTo`, the first one that is not 0 decides. */
  function Compare2<T1, T2>(c1: (T1, T1) -> int, c2: (T2, T2) -> int, o1: Tuple2<T1, T2>, o2: Tuple2<T1, T2>): (r: int)
    ensures r == FirstNonZero([c1(o1.v1, o2.v1), c2(o1.v2, o2.v2)])
  {
    assert [c2(o1.v2, o2.v2)][1..] == [];
    assert FirstNonZero([c2(o1.v2, o2.v2)]) == c2(o1.v2, o2.v2);
    assert [c1(o1.v1, o2.v1), c2(o1.v2, o2.v2)][1..] == [c2(o1.v2, o2.v2)];
    var r1 := c1(o1.v1, o2.v1);
    if r1 != 0 then r1 else
    c2(o1.v2, o2.v2)
  }

  /** `comparatorOf` for `Tuple3`: the components' `compareTo`, the first one that is not 0 decides. */
  function Compare3<T1, T2, T3>(c1: (T1, T1) -> int, c2: (T2, T2) -> int, c3: (T3, T3) -> int, o1: Tuple3<T1, T2, T3>, o2: Tuple3<T1, T2, T3>): (r: int)
    ensures r == FirstNonZero([c1(o1.v1, o2.v1), c2(o1.v2, o2.v2), c3(o1.v3, o2.v3)])
  {
    assert [c3(o1.v3, o2.v3)][1..] == [];
    assert FirstNonZero([c3(o1.v3, o2.v3)]) == c3(o1.v3, o2.v3);
    assert [c2(o1.v2, o2.v2), c3(o1.v3, o2.v3)][1..] == [c3(o1.v3, o2.v3)];
    assert FirstNonZero([c2(o1.v2, o2.v2), c3(o1.v3, o2.v3)]) == if c2(o1.v2, o2.v2) != 0 then c2(o1.v2, o2.v2) else FirstNonZero([c3(o1.v3, o2.v3)]);
    assert [c1(o1.v1, o2.v1), c2(o1.v2, o2.v2), c3(o1.v3, o2.v3)][1..] == [c2(o1.v2, o2.v2), c3(o1.v3, o2.v3)];
    var r1 := c1(o1.v1, o2.v1);
    if r1 != 0 then r1 else
    var r2 := c2(o1.v2, o2.v2);
    if r2 != 0 then r2 else
    c3(o1.v3, o2.v3)
  }

  /** `comparatorOf` for `Tuple4`: the components' `compareTo`, the first one that is not 0 decides. */
  function Compare4<T1, T2, T3, T4>(c1: (T1, T1) -> int, c2: (T2, T2) -> int, c3: (T3, T3) -> int, c4: (T4, T4) -> int, o1: Tuple4<T1, T2, T3, T4>, o2: Tuple4<T1, T2, T3, T4>): (r: int)
    ensures r == FirstNonZero([c1(o1.v1, o2.v1), c2(o1.v2, o2.v2), c3(o1.v3, o2.v3), c4(o1.v4, o2.v4)])
  {
    assert [c4(o1.v4, o2.v4)][1..] == [];
    assert FirstNonZero([c4(o1.v4, o2.v4)]) == c4(o1.v4, o2.v4);
    assert [c3(o1.v3, o2.v3), c4(o1.v4, o2.v4)][1..] == [c4(o1.v4, o2.v4)];
    assert FirstNonZero([c3(o1.v3, o2.v3), c4(o1.v4, o2.v4)]) == if c3(o1.v3, o2.v3) != 0 then c3(o1.v3, o2.v3) else FirstNonZero([c4(o1.v4, o2.v4)]);
    assert [c2(o1.v2, o2.v2), c3(o1.v3, o2.v3), c4(o1.v4, o2.v4)][1..] == [c3(o1.v3, o2.v3), c4(o1.v4, o2.v4)];
    assert FirstNonZero([c2(o1.v2, o2.v2), c3(o1.v3, o2.v3), c4(o1.v4, o2.v4)]) == if c2(o1.v2, o2.v2) != 0 then c2(o1.v2, o2.v2) else FirstNonZero([c3(o1.v3, o2.v3), c4(o1.v4, o2.v4)]);
    assert [c1(o1.v1, o2.v1), c2(o1.v2, o2.v2), c3(o1.v3, o2.v3), c4(o1.v4, o2.v4)][1..] == [c2(o1.v2, o2.v2), c3(o1.v3, o2.v3), c4(o1.v4, o2.v4)];
    var r1 := c1(o1.v1, o2.v1);
    if r1 != 0 then r1 else
    var r2 := c2(o1.v2, o2.v2);
    if r2 != 0 then r2 else
    var r3 := c3(o1.v3, o2.v3);
    if r3 != 0 then r3 else
    c4(o1.v4, o2.v4)
  }

  /** `comparatorOf` for `Tuple5`: the components' `compareTo`, the first one that is not 0 decides. */
  function Compare5<T1, T2, T3, T4, T5>(c1: (T1, T1) -> int, c2: (T2, T2) -> int, c3: (T3, T3) -> int, c4: (T4, T4) -> int, c5: (T5, T5) -> int, o1: Tuple5<T1, T2, T3, T4, T5>, o2: Tuple5<T1, T2, T3, T4, T5>): (r: int)
    ensures r == FirstNonZero([c1(o1.v1, o2.v1), c2(o1.v2, o2.v2), c3(o1.v3, o2.v3), c4(o1.v4, o2.v4), c5(o1.v5, o2.v5)])
  {
    assert [c5(o1.v5, o2.v5)][1..] == [];
    assert FirstNonZero([c5(o1.v5, o2.v5)]) == c5(o1.v5, o2.v5);
    assert [c4(o1.v4, o2.v4), c5(o1.v5, o2.v5)][1..] == [c5(o1.v5, o2.v5)];
    assert FirstNonZero([c4(o1.v4, o2.v4), c5(o1.v5, o2.v5)]) == if c4(o1.v4, o2.v4) != 0 then c4(o1.v4, o2.v4) else FirstNonZero([c5(o1.v5, o2.v5)]);
    assert [c3(o1.v3, o2.v3), c4(o1.v4, o2.v4), c5(o1.v5, o2.v5)][1..] == [c4(o1.v4, o2.v4), c5(o1.v5, o2.v5)];
    assert FirstNonZero([c3(o1.v3, o2.v3), c4(o1.v4, o2.v4), c5(o1.v5, o2.v5)]) == if c3(o1.v3, o2.v3) != 0 then c3(o1.v3, o2.v3) else FirstNonZero([c4(o1.v4, o2.v4), c5(o1.v5, o2.v5)]);
    assert [c2(o1.v2, o2.v2), c3(o1.v3, o2.v3), c4(o1.v4, o2.v4), c5(o1.v5, o2.v5)][1..] == [c3(o1.v3, o2.v3), c4(o1.v4, o2.v4), c5(o1.v5, o2.v5)];
    assert FirstNonZero([c2(o1.v2, o2.v2), c3(o1.v3, o2.v3), c4(o1.v4, o2.v4), c5(o1.v5, o2.v5)]) == if c2(o1.v2, o2.v2) != 0 then c2(o1.v2, o2.v2) else FirstNonZero([c3(o1.v3, o2.v3), c4(o1.v4, o2.v4), c5(o1.v5, o2.v5)]);
    assert [c1(o1.v1, o2.v1), c2(o1.v2, o2.v2), c3(o1.v3, o2.v3), c4(o1.v4, o2.v4), c5(o1.v5, o2.v5)][1..] == [c2(o1.v2, o2.v2), c3(o1.v3, o2.v3), c4(o1.v4, o2.v4), c5(o1.v5, o2.v5)];
    var r1 := c1(o1.v1, o2.v1);
    if r1 != 0 then r1 else
    var r2 := c2(o1.v2, o2.v2);
    if r2 != 0 then r2 else
    var r3 := c3(o1.v3, o2.v3);
    if r3 != 0 then r3 else
    var r4 := c4(o1.v4, o2.v4);
    if r4 != 0 then r4 else
    c5(o1.v5, o2.v5)
  }
}
