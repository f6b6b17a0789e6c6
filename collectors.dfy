/**
 * The `toList2()` .. `toList5()` collectors: a tuple stream collected into one list per
 * component. The container is a tuple of mutable lists that the accumulator and the
 * combiner append to.
 */
module Collectors {
  import opened Tuples

  /** The container of `toList2()`: one `ArrayList` per component, filled in step. */
  class Lists2<T1, T2> {
    var v1: seq<T1>
    var v2: seq<T2>
    /** The tuples accumulated so far, in order. */
    ghost var seen: seq<Tuple2<T1, T2>>

    /** Each list holds its component of every tuple seen, in order. */
    ghost predicate Valid()
      reads this
    {
      Unzip2(seen) == Tuple2(v1, v2)
    }

    /** The result the collector finishes with (the identity finisher): the lists as a tuple. */
    function Result(): Tuple2<seq<T1>, seq<T2>>
      reads this
    {
      Tuple2(v1, v2)
    }

    /** The supplier: 2 empty lists. */
    constructor ()
      ensures Valid() && seen == [] && v1 == [] && v2 == []
    {
      v1, v2 := [], [];
      seen := [];
    }

    /** The accumulator: adds each component of `t` to its list. */
    method Accumulate(t: Tuple2<T1, T2>)
      requires Valid()
      modifies this
      ensures Valid() && seen == old(seen) + [t]
      ensures v1 == old(v1) + [t.v1] && v2 == old(v2) + [t.v2]
    {
      Unzip2Append(seen, [t]);
      ghost var one := Unzip2([t]);
      assert one.v1 == [t.v1] && one.v2 == [t.v2];
      v1, v2 := v1 + [t.v1], v2 + [t.v2];
      seen := seen + [t];
    }

    /** What a sequential stream does with the accumulator: applies it to every tuple of `ts`, in order. */
    method AccumulateEach(ts: seq<Tuple2<T1, T2>>)
      requires Valid()
      modifies this
      ensures Valid() && seen == old(seen) + ts
    {
      for k := 0 to |ts|
        invariant Valid() && seen == old(seen) + ts[..k]
      {
        Accumulate(ts[k]);
        assert ts[..k] + [ts[k]] == ts[..k + 1];
      }
      assert ts[..|ts|] == ts;
    }

    /** The combiner: appends each list of `right` to the matching list of this container, which it returns. */
    method Combine(right: Lists2<T1, T2>) returns (left: Lists2<T1, T2>)
      requires Valid() && right.Valid() && right != this
      modifies this
      ensures left == this && Valid() && seen == old(seen) + right.seen
      ensures v1 == old(v1) + right.v1 && v2 == old(v2) + right.v2
    {
      Unzip2Append(seen, right.seen);
      v1, v2 := v1 + right.v1, v2 + right.v2;
      seen := seen + right.seen;
      left := this;
    }
  }

  /** A sequential `collect(toList2())`: a fresh container, then the accumulator on every tuple in order; the unzip of `ts`. */
  method CollectToList2<T1, T2>(ts: seq<Tuple2<T1, T2>>) returns (r: Tuple2<seq<T1>, seq<T2>>)
    ensures r == Unzip2(ts)
  {
    var lists := new Lists2();
    lists.AccumulateEach(ts);
    assert lists.seen == ts;
    r := lists.Result();
  }

  /**
   * A parallel `collect(toList2())` over a stream split into `a` and `b`: each part collected
   * into its own container, then the two combined; the same lists as collecting `a + b` in order.
   */
  method CollectToList2InParts<T1, T2>(a: seq<Tuple2<T1, T2>>, b: seq<Tuple2<T1, T2>>) returns (r: Tuple2<seq<T1>, seq<T2>>)
    ensures r == Unzip2(a + b)
  {
    var left := new Lists2();
    left.AccumulateEach(a);
    var right := new Lists2();
    right.AccumulateEach(b);
    assert left.seen == a && right.seen == b;
    var combined := left.Combine(right);
    r := combined.Result();
  }

  /** The container of `toList3()`: one `ArrayList` per component, filled in step. */
  class Lists3<T1, T2, T3> {
    var v1: seq<T1>
    var v2: seq<T2>
    var v3: seq<T3>
    /** The tuples accumulated so far, in order. */
    ghost var seen: seq<Tuple3<T1, T2, T3>>

    /** Each list holds its component of every tuple seen, in order. */
    ghost predicate Valid()
      reads this
    {
      Unzip3(seen) == Tuple3(v1, v2, v3)
    }

    /** The result the collector finishes with (the identity finisher): the lists as a tuple. */
    function Result(): Tuple3<seq<T1>, seq<T2>, seq<T3>>
      reads this
    {
      Tuple3(v1, v2, v3)
    }

    /** The supplier: 3 empty lists. */
    constructor ()
      ensures Valid() && seen == [] && v1 == [] && v2 == [] && v3 == []
    {
      v1, v2, v3 := [], [], [];
      seen := [];
    }

    /** The accumulator: adds each component of `t` to its list. */
    method Accumulate(t: Tuple3<T1, T2, T3>)
      requires Valid()
      modifies this
      ensures Valid() && seen == old(seen) + [t]
      ensures v1 == old(v1) + [t.v1] && v2 == old(v2) + [t.v2] && v3 == old(v3) + [t.v3]
    {
      Unzip3Append(seen, [t]);
      ghost var one := Unzip3([t]);
      assert one.v1 == [t.v1] && one.v2 == [t.v2] && one.v3 == [t.v3];
      v1, v2, v3 := v1 + [t.v1], v2 + [t.v2], v3 + [t.v3];
      seen := seen + [t];
    }

    /** What a sequential stream does with the accumulator: applies it to every tuple of `ts`, in order. */
    method AccumulateEach(ts: seq<Tuple3<T1, T2, T3>>)
      requires Valid()
      modifies this
      ensures Valid() && seen == old(seen) + ts
    {
      for k := 0 to |ts|
        invariant Valid() && seen == old(seen) + ts[..k]
      {
        Accumulate(ts[k]);
        assert ts[..k] + [ts[k]] == ts[..k + 1];
      }
      assert ts[..|ts|] == ts;
    }

    /** The combiner: appends each list of `right` to the matching list of this container, which it returns. */
    method Combine(right: Lists3<T1, T2, T3>) returns (left: Lists3<T1, T2, T3>)
      requires Valid() && right.Valid() && right != this
      modifies this
      ensures left == this && Valid() && seen == old(seen) + right.seen
      ensures v1 == old(v1) + right.v1 && v2 == old(v2) + right.v2 && v3 == old(v3) + right.v3
    {
      Unzip3Append(seen, right.seen);
      v1, v2, v3 := v1 + right.v1, v2 + right.v2, v3 + right.v3;
      seen := seen + right.seen;
      left := this;
    }
  }

  /** A sequential `collect(toList3())`: a fresh container, then the accumulator on every tuple in order; the unzip of `ts`. */
  method CollectToList3<T1, T2, T3>(ts: seq<Tuple3<T1, T2, T3>>) returns (r: Tuple3<seq<T1>, seq<T2>, seq<T3>>)
    ensures r == Unzip3(ts)
  {
    var lists := new Lists3();
    lists.AccumulateEach(ts);
    assert lists.seen == ts;
    r := lists.Result();
  }

  /**
   * A parallel `collect(toList3())` over a stream split into `a` and `b`: each part collected
   * into its own container, then the two combined; the same lists as collecting `a + b` in order.
   */
  method CollectToList3InParts<T1, T2, T3>(a: seq<Tuple3<T1, T2, T3>>, b: seq<Tuple3<T1, T2, T3>>) returns (r: Tuple3<seq<T1>, seq<T2>, seq<T3>>)
    ensures r == Unzip3(a + b)
  {
    var left := new Lists3();
    left.AccumulateEach(a);
    var right := new Lists3();
    right.AccumulateEach(b);
    assert left.seen == a && right.seen == b;
    var combined := left.Combine(right);
    r := combined.Result();
  }

  /** The container of `toList4()`: one `ArrayList` per component, filled in step. */
  class Lists4<T1, T2, T3, T4> {
    var v1: seq<T1>
    var v2: seq<T2>
    var v3: seq<T3>
    var v4: seq<T4>
    /** The tuples accumulated so far, in order. */
    ghost var seen: seq<Tuple4<T1, T2, T3, T4>>

    /** Each list holds its component of every tuple seen, in order. */
    ghost predicate Valid()
      reads this
    {
      Unzip4(seen) == Tuple4(v1, v2, v3, v4)
    }

    /** The result the collector finishes with (the identity finisher): the lists as a tuple. */
    function Result(): Tuple4<seq<T1>, seq<T2>, seq<T3>, seq<T4>>
      reads this
    {
      Tuple4(v1, v2, v3, v4)
    }

    /** The supplier: 4 empty lists. */
    constructor ()
      ensures Valid() && seen == [] && v1 == [] && v2 == [] && v3 == [] && v4 == []
    {
      v1, v2, v3, v4 := [], [], [], [];
      seen := [];
    }

    /** The accumulator: adds each component of `t` to its list. */
    method Accumulate(t: Tuple4<T1, T2, T3, T4>)
      requires Valid()
      modifies this
      ensures Valid() && seen == old(seen) + [t]
      ensures v1 == old(v1) + [t.v1] && v2 == old(v2) + [t.v2] && v3 == old(v3) + [t.v3] && v4 == old(v4) + [t.v4]
    {
      Unzip4Append(seen, [t]);
      ghost var one := Unzip4([t]);
      assert one.v1 == [t.v1] && one.v2 == [t.v2] && one.v3 == [t.v3] && one.v4 == [t.v4];
      v1, v2, v3, v4 := v1 + [t.v1], v2 + [t.v2], v3 + [t.v3], v4 + [t.v4];
      seen := seen + [t];
    }

    /** What a sequential stream does with the accumulator: applies it to every tuple of `ts`, in order. */
    method AccumulateEach(ts: seq<Tuple4<T1, T2, T3, T4>>)
      requires Valid()
      modifies this
      ensures Valid() && seen == old(seen) + ts
    {
      for k := 0 to |ts|
        invariant Valid() && seen == old(seen) + ts[..k]
      {
        Accumulate(ts[k]);
        assert ts[..k] + [ts[k]] == ts[..k + 1];
      }
      assert ts[..|ts|] == ts;
    }

    /** The combiner: appends each list of `right` to the matching list of this container, which it returns. */
    method Combine(right: Lists4<T1, T2, T3, T4>) returns (left: Lists4<T1, T2, T3, T4>)
      requires Valid() && right.Valid() && right != this
      modifies this
      ensures left == this && Valid() && seen == old(seen) + right.seen
      ensures v1 == old(v1) + right.v1 && v2 == old(v2) + right.v2 && v3 == old(v3) + right.v3 && v4 == old(v4) + right.v4
    {
      Unzip4Append(seen, right.seen);
      v1, v2, v3, v4 := v1 + right.v1, v2 + right.v2, v3 + right.v3, v4 + right.v4;
      seen := seen + right.seen;
      left := this;
    }
  }

  /** A sequential `collect(toList4())`: a fresh container, then the accumulator on every tuple in order; the unzip of `ts`. */
  method CollectToList4<T1, T2, T3, T4>(ts: seq<Tuple4<T1, T2, T3, T4>>) returns (r: Tuple4<seq<T1>, seq<T2>, seq<T3>, seq<T4>>)
    ensures r == Unzip4(ts)
  {
    var lists := new Lists4();
    lists.AccumulateEach(ts);
    assert lists.seen == ts;
    r := lists.Result();
  }

  /**
   * A parallel `collect(toList4())` over a stream split into `a` and `b`: each part collected
   * into its own container, then the two combined; the same lists as collecting `a + b` in order.
   */
  method CollectToList4InParts<T1, T2, T3, T4>(a: seq<Tuple4<T1, T2, T3, T4>>, b: seq<Tuple4<T1, T2, T3, T4>>) returns (r: Tuple4<seq<T1>, seq<T2>, seq<T3>, seq<T4>>)
    ensures r == Unzip4(a + b)
  {
    var left := new Lists4();
    left.AccumulateEach(a);
    var right := new Lists4();
    right.AccumulateEach(b);
    assert left.seen == a && right.seen == b;
    var combined := left.Combine(right);
    r := combined.Result();
  }

  /** The container of `toList5()`: one `ArrayList` per component, filled in step. */
  class Lists5<T1, T2, T3, T4, T5> {
    var v1: seq<T1>
    var v2: seq<T2>
    var v3: seq<T3>
    var v4: seq<T4>
    var v5: seq<T5>
    /** The tuples accumulated so far, in order. */
    ghost var seen: seq<Tuple5<T1, T2, T3, T4, T5>>

    /** Each list holds its component of every tuple seen, in order. */
    ghost predicate Valid()
      reads this
    {
      Unzip5(seen) == Tuple5(v1, v2, v3, v4, v5)
    }

    /** The result the collector finishes with (the identity finisher): the lists as a tuple. */
    function Result(): Tuple5<seq<T1>, seq<T2>, seq<T3>, seq<T4>, seq<T5>>
      reads this
    {
      Tuple5(v1, v2, v3, v4, v5)
    }

    /** The supplier: 5 empty lists. */
    constructor ()
      ensures Valid() && seen == [] && v1 == [] && v2 == [] && v3 == [] && v4 == [] && v5 == []
    {
      v1, v2, v3, v4, v5 := [], [], [], [], [];
      seen := [];
    }

    /** The accumulator: adds each component of `t` to its list. */
    method Accumulate(t: Tuple5<T1, T2, T3, T4, T5>)
      requires Valid()
      modifies this
      ensures Valid() && seen == old(seen) + [t]
      ensures v1 == old(v1) + [t.v1] && v2 == old(v2) + [t.v2] && v3 == old(v3) + [t.v3] && v4 == old(v4) + [t.v4] && v5 == old(v5) + [t.v5]
    {
      Unzip5Append(seen, [t]);
      ghost var one := Unzip5([t]);
      assert one.v1 == [t.v1] && one.v2 == [t.v2] && one.v3 == [t.v3] && one.v4 == [t.v4] && one.v5 == [t.v5];
      v1, v2, v3, v4, v5 := v1 + [t.v1], v2 + [t.v2], v3 + [t.v3], v4 + [t.v4], v5 + [t.v5];
      seen := seen + [t];
    }

    /** What a sequential stream does with the accumulator: applies it to every tuple of `ts`, in order. */
    method AccumulateEach(ts: seq<Tuple5<T1, T2, T3, T4, T5>>)
      requires Valid()
      modifies this
      ensures Valid() && seen == old(seen) + ts
    {
      for k := 0 to |ts|
        invariant Valid() && seen == old(seen) + ts[..k]
      {
        Accumulate(ts[k]);
        assert ts[..k] + [ts[k]] == ts[..k + 1];
      }
      assert ts[..|ts|] == ts;
    }

    /** The combiner: appends each list of `right` to the matching list of this container, which it returns. */
    method Combine(right: Lists5<T1, T2, T3, T4, T5>) returns (left: Lists5<T1, T2, T3, T4, T5>)
      requires Valid() && right.Valid() && right != this
      modifies this
      ensures left == this && Valid() && seen == old(seen) + right.seen
      ensures v1 == old(v1) + right.v1 && v2 == old(v2) + right.v2 && v3 == old(v3) + right.v3 && v4 == old(v4) + right.v4 && v5 == old(v5) + right.v5
    {
      Unzip5Append(seen, right.seen);
      v1, v2, v3, v4, v5 := v1 + right.v1, v2 + right.v2, v3 + right.v3, v4 + right.v4, v5 + right.v5;
      seen := seen + right.seen;
      left := this;
    }
  }

  /** A sequential `collect(toList5())`: a fresh container, then the accumulator on every tuple in order; the unzip of `ts`. */
  method CollectToList5<T1, T2, T3, T4, T5>(ts: seq<Tuple5<T1, T2, T3, T4, T5>>) returns (r: Tuple5<seq<T1>, seq<T2>, seq<T3>, seq<T4>, seq<T5>>)
    ensures r == Unzip5(ts)
  {
    var lists := new Lists5();
    lists.AccumulateEach(ts);
    assert lists.seen == ts;
    r := lists.Result();
  }

  /**
   * A parallel `collect(toList5())` over a stream split into `a` and `b`: each part collected
   * into its own container, then the two combined; the same lists as collecting `a + b` in order.
   */
  method CollectToList5InParts<T1, T2, T3, T4, T5>(a: seq<Tuple5<T1, T2, T3, T4, T5>>, b: seq<Tuple5<T1, T2, T3, T4, T5>>) returns (r: Tuple5<seq<T1>, seq<T2>, seq<T3>, seq<T4>, seq<T5>>)
    ensures r == Unzip5(a + b)
  {
    var left := new Lists5();
    left.AccumulateEach(a);
    var right := new Lists5();
    right.AccumulateEach(b);
    assert left.seen == a && right.seen == b;
    var combined := left.Combine(right);
    r := combined.Result();
  }
}
