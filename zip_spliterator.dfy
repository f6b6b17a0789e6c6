/**
 * `Zip2Spliterator` .. `Zip5Spliterator`: the sized zip cursors that `Tuple.stream(List...)`
 * builds over aligned `ListHalfSplitSpliterator`s.
 */
module ZipCursors {
  import opened Wrappers
  import opened Characteristics
  import opened Tuples
  import opened HalfSplit

  /** The fixed characteristics of every zip cursor: ORDERED, NONNULL and SUBSIZED, never SIZED. */
  function ZipCursorCharacteristics(): (c: bv32)
    ensures Has(c, ORDERED) && Has(c, NONNULL) && Has(c, SUBSIZED) && !Has(c, SIZED)
    ensures c & !(ORDERED | NONNULL | SUBSIZED) == 0
  {
    ORDERED | NONNULL | SUBSIZED
  }

  /** `Zip2Spliterator`: 2 list cursors over equally long lists, advanced and split in lockstep. */
  class Zip2Spliterator<T1, T2> {
    var s1: Cursor<T1>
    var s2: Cursor<T2>

    /**
     * Every zip cursor is built over sublists of one common length, all unconsumed,
     * so the components always cover the same index range.
     */
    ghost predicate Valid()
      reads this
    {
      && CursorValid(s1) && CursorValid(s2)
      && |s1.list| == |s2.list| && s1.count == s2.count
    }

    /** The tuples still to come. */
    ghost function Output(): seq<Tuple2<T1, T2>>
      reads this
      requires Valid()
    {
      Zip2(Remaining(s1), Remaining(s2))
    }

    constructor (s1: Cursor<T1>, s2: Cursor<T2>)
      requires CursorValid(s1) && CursorValid(s2)
      requires |s1.list| == |s2.list| && s1.count == s2.count
      ensures this.s1 == s1 && this.s2 == s2
      ensures Valid()
    {
      this.s1, this.s2 := s1, s2;
    }

    /** Advances every component (no short circuit); emits a tuple only if all of them delivered. */
    method TryAdvance() returns (r: Option<Tuple2<T1, T2>>)
      requires Valid()
      modifies this
      ensures Valid()
      ensures r == if old(Output()) == [] then None else Some(old(Output())[0])
      ensures Output() == if old(Output()) == [] then [] else old(Output())[1..]
    {
      Zip2Step(Remaining(s1), Remaining(s2));
      var accepted := true;
      var (a1, c1) := Advance(s1);
      s1 := c1;
      accepted := accepted && a1.Some?;
      var (a2, c2) := Advance(s2);
      s2 := c2;
      accepted := accepted && a2.Some?;
      if accepted {
        r := Some(Tuple2(a1.value, a2.value));
      } else {
        r := None;
      }
    }

    /**
     * Splits every component in turn. The components split alike, so either the first one
     * throws, or all return null (`Objects.requireNonNull` in the constructor throws
     * `NullPointerException`, which is caught), or all hand off equally long prefixes.
     */
    method TrySplit() returns (r: SplitOutcome<Zip2Spliterator<T1, T2>>)
      requires Valid()
      modifies this
      ensures Valid()
      ensures r.Declined? <==> old(Declines(|s1.list|, s1.count))
      ensures r.Thrown? <==> old(Throws(|s1.list|, s1.count))
      ensures r.Thrown? ==> r.failure == IllegalArgument
      ensures !r.Split? ==> Output() == old(Output())
      ensures r.Split? ==> fresh(r.prefix) && r.prefix.Valid()
      ensures r.Split? ==> r.prefix.Output() + Output() == old(Output())
      ensures r.Split? ==> |r.prefix.Output()| == old(SplitPoint(|s1.list|, s1.count) - s1.count)
    {
      var o1 := SplitCursor(s1);
      if o1.SplitFails? {
        return Thrown(o1.failure);
      }
      if o1.Halves? {
        s1 := o1.rest;
      }
      var o2 := SplitCursor(s2);
      assert !o2.SplitFails? && (o2.NoSplit? <==> o1.NoSplit?);  // s2 splits exactly like s1
      if o2.Halves? {
        s2 := o2.rest;
      }
      if o1.NoSplit? || o2.NoSplit? {
        return Declined;
      }
      Zip2Append(Remaining(o1.prefix), Remaining(o1.rest), Remaining(o2.prefix), Remaining(o2.rest));
      var z := new Zip2Spliterator(o1.prefix, o2.prefix);
      return Split(z);
    }

    /** The size of the first component, which is the number of tuples left. */
    method EstimateSize() returns (k: int)
      requires Valid()
      ensures k == |Output()|
    {
      k := |s1.list| - s1.count;
    }

    method Characteristics() returns (c: bv32)
      ensures c == ZipCursorCharacteristics()
    {
      c := ORDERED | NONNULL | SUBSIZED;
    }
  }

  /** `Zip3Spliterator`: 3 list cursors over equally long lists, advanced and split in lockstep. */
  class Zip3Spliterator<T1, T2, T3> {
    var s1: Cursor<T1>
    var s2: Cursor<T2>
    var s3: Cursor<T3>

    /**
     * Every zip cursor is built over sublists of one common length, all unconsumed,
     * so the components always cover the same index range.
     */
    ghost predicate Valid()
      reads this
    {
      && CursorValid(s1) && CursorValid(s2) && CursorValid(s3)
      && |s1.list| == |s2.list| && |s1.list| == |s3.list| && s1.count == s2.count && s1.count == s3.count
    }

    /** The tuples still to come. */
    ghost function Output(): seq<Tuple3<T1, T2, T3>>
      reads this
      requires Valid()
    {
      Zip3(Remaining(s1), Remaining(s2), Remaining(s3))
    }

    constructor (s1: Cursor<T1>, s2: Cursor<T2>, s3: Cursor<T3>)
      requires CursorValid(s1) && CursorValid(s2) && CursorValid(s3)
      requires |s1.list| == |s2.list| && |s1.list| == |s3.list| && s1.count == s2.count && s1.count == s3.count
      ensures this.s1 == s1 && this.s2 == s2 && this.s3 == s3
      ensures Valid()
    {
      this.s1, this.s2, this.s3 := s1, s2, s3;
    }

    /** Advances every component (no short circuit); emits a tuple only if all of them delivered. */
    method TryAdvance() returns (r: Option<Tuple3<T1, T2, T3>>)
      requires Valid()
      modifies this
      ensures Valid()
      ensures r == if old(Output()) == [] then None else Some(old(Output())[0])
      ensures Output() == if old(Output()) == [] then [] else old(Output())[1..]
    {
      Zip3Step(Remaining(s1), Remaining(s2), Remaining(s3));
      var accepted := true;
      var (a1, c1) := Advance(s1);
      s1 := c1;
      accepted := accepted && a1.Some?;
      var (a2, c2) := Advance(s2);
      s2 := c2;
      accepted := accepted && a2.Some?;
      var (a3, c3) := Advance(s3);
      s3 := c3;
      accepted := accepted && a3.Some?;
      if accepted {
        r := Some(Tuple3(a1.value, a2.value, a3.value));
      } else {
        r := None;
      }
    }

    /**
     * Splits every component in turn. The components split alike, so either the first one
     * throws, or all return null (`Objects.requireNonNull` in the constructor throws
     * `NullPointerException`, which is caught), or all hand off equally long prefixes.
     */
    method TrySplit() returns (r: SplitOutcome<Zip3Spliterator<T1, T2, T3>>)
      requires Valid()
      modifies this
      ensures Valid()
      ensures r.Declined? <==> old(Declines(|s1.list|, s1.count))
      ensures r.Thrown? <==> old(Throws(|s1.list|, s1.count))
      ensures r.Thrown? ==> r.failure == IllegalArgument
      ensures !r.Split? ==> Output() == old(Output())
      ensures r.Split? ==> fresh(r.prefix) && r.prefix.Valid()
      ensures r.Split? ==> r.prefix.Output() + Output() == old(Output())
      ensures r.Split? ==> |r.prefix.Output()| == old(SplitPoint(|s1.list|, s1.count) - s1.count)
    {
      var o1 := SplitCursor(s1);
      if o1.SplitFails? {
        return Thrown(o1.failure);
      }
      if o1.Halves? {
        s1 := o1.rest;
      }
      var o2 := SplitCursor(s2);
      assert !o2.SplitFails? && (o2.NoSplit? <==> o1.NoSplit?);  // s2 splits exactly like s1
      if o2.Halves? {
        s2 := o2.rest;
      }
      var o3 := SplitCursor(s3);
      assert !o3.SplitFails? && (o3.NoSplit? <==> o1.NoSplit?);  // s3 splits exactly like s1
      if o3.Halves? {
        s3 := o3.rest;
      }
      if o1.NoSplit? || o2.NoSplit? || o3.NoSplit? {
        return Declined;
      }
      Zip3Append(Remaining(o1.prefix), Remaining(o1.rest), Remaining(o2.prefix), Remaining(o2.rest), Remaining(o3.prefix), Remaining(o3.rest));
      var z := new Zip3Spliterator(o1.prefix, o2.prefix, o3.prefix);
      return Split(z);
    }

    /** The size of the first component, which is the number of tuples left. */
    method EstimateSize() returns (k: int)
      requires Valid()
      ensures k == |Output()|
    {
      k := |s1.list| - s1.count;
    }

    method Characteristics() returns (c: bv32)
      ensures c == ZipCursorCharacteristics()
    {
      c := ORDERED | NONNULL | SUBSIZED;
    }
  }

  /** `Zip4Spliterator`: 4 list cursors over equally long lists, advanced and split in lockstep. */
  class Zip4Spliterator<T1, T2, T3, T4> {
    var s1: Cursor<T1>
    var s2: Cursor<T2>
    var s3: Cursor<T3>
    var s4: Cursor<T4>

    /**
     * Every zip cursor is built over sublists of one common length, all unconsumed,
     * so the components always cover the same index range.
     */
    ghost predicate Valid()
      reads this
    {
      && CursorValid(s1) && CursorValid(s2) && CursorValid(s3) && CursorValid(s4)
      && |s1.list| == |s2.list| && |s1.list| == |s3.list| && |s1.list| == |s4.list| && s1.count == s2.count && s1.count == s3.count && s1.count == s4.count
    }

    /** The tuples still to come. */
    ghost function Output(): seq<Tuple4<T1, T2, T3, T4>>
      reads this
      requires Valid()
    {
      Zip4(Remaining(s1), Remaining(s2), Remaining(s3), Remaining(s4))
    }

    constructor (s1: Cursor<T1>, s2: Cursor<T2>, s3: Cursor<T3>, s4: Cursor<T4>)
      requires CursorValid(s1) && CursorValid(s2) && CursorValid(s3) && CursorValid(s4)
      requires |s1.list| == |s2.list| && |s1.list| == |s3.list| && |s1.list| == |s4.list| && s1.count == s2.count && s1.count == s3.count && s1.count == s4.count
      ensures this.s1 == s1 && this.s2 == s2 && this.s3 == s3 && this.s4 == s4
      ensures Valid()
    {
      this.s1, this.s2, this.s3, this.s4 := s1, s2, s3, s4;
    }

    /** Advances every component (no short circuit); emits a tuple only if all of them delivered. */
    method TryAdvance() returns (r: Option<Tuple4<T1, T2, T3, T4>>)
      requires Valid()
      modifies this
      ensures Valid()
      ensures r == if old(Output()) == [] then None else Some(old(Output())[0])
      ensures Output() == if old(Output()) == [] then [] else old(Output())[1..]
    {
      Zip4Step(Remaining(s1), Remaining(s2), Remaining(s3), Remaining(s4));
      var accepted := true;
      var (a1, c1) := Advance(s1);
      s1 := c1;
      accepted := accepted && a1.Some?;
      var (a2, c2) := Advance(s2);
      s2 := c2;
      accepted := accepted && a2.Some?;
      var (a3, c3) := Advance(s3);
      s3 := c3;
      accepted := accepted && a3.Some?;
      var (a4, c4) := Advance(s4);
      s4 := c4;
      accepted := accepted && a4.Some?;
      if accepted {
        r := Some(Tuple4(a1.value, a2.value, a3.value, a4.value));
      } else {
        r := None;
      }
    }

    /**
     * Splits every component in turn. The components split alike, so either the first one
     * throws, or all return null (`Objects.requireNonNull` in the constructor throws
     * `NullPointerException`, which is caught), or all hand off equally long prefixes.
     */
    method TrySplit() returns (r: SplitOutcome<Zip4Spliterator<T1, T2, T3, T4>>)
      requires Valid()
      modifies this
      ensures Valid()
      ensures r.Declined? <==> old(Declines(|s1.list|, s1.count))
      ensures r.Thrown? <==> old(Throws(|s1.list|, s1.count))
      ensures r.Thrown? ==> r.failure == IllegalArgument
      ensures !r.Split? ==> Output() == old(Output())
      ensures r.Split? ==> fresh(r.prefix) && r.prefix.Valid()
      ensures r.Split? ==> r.prefix.Output() + Output() == old(Output())
      ensures r.Split? ==> |r.prefix.Output()| == old(SplitPoint(|s1.list|, s1.count) - s1.count)
    {
      var o1 := SplitCursor(s1);
      if o1.SplitFails? {
        return Thrown(o1.failure);
      }
      if o1.Halves? {
        s1 := o1.rest;
      }
      var o2 := SplitCursor(s2);
      assert !o2.SplitFails? && (o2.NoSplit? <==> o1.NoSplit?);  // s2 splits exactly like s1
      if o2.Halves? {
        s2 := o2.rest;
      }
      var o3 := SplitCursor(s3);
      assert !o3.SplitFails? && (o3.NoSplit? <==> o1.NoSplit?);  // s3 splits exactly like s1
      if o3.Halves? {
        s3 := o3.rest;
      }
      var o4 := SplitCursor(s4);
      assert !o4.SplitFails? && (o4.NoSplit? <==> o1.NoSplit?);  // s4 splits exactly like s1
      if o4.Halves? {
        s4 := o4.rest;
      }
      if o1.NoSplit? || o2.NoSplit? || o3.NoSplit? || o4.NoSplit? {
        return Declined;
      }
      Zip4Append(Remaining(o1.prefix), Remaining(o1.rest), Remaining(o2.prefix), Remaining(o2.rest), Remaining(o3.prefix), Remaining(o3.rest), Remaining(o4.prefix), Remaining(o4.rest));
      var z := new Zip4Spliterator(o1.prefix, o2.prefix, o3.prefix, o4.prefix);
      return Split(z);
    }

    /** The size of the first component, which is the number of tuples left. */
    method EstimateSize() returns (k: int)
      requires Valid()
      ensures k == |Output()|
    {
      k := |s1.list| - s1.count;
    }

    method Characteristics() returns (c: bv32)
      ensures c == ZipCursorCharacteristics()
    {
      c := ORDERED | NONNULL | SUBSIZED;
    }
  }

  /** `Zip5Spliterator`: 5 list cursors over equally long lists, advanced and split in lockstep. */
  class Zip5Spliterator<T1, T2, T3, T4, T5> {
    var s1: Cursor<T1>
    var s2: Cursor<T2>
    var s3: Cursor<T3>
    var s4: Cursor<T4>
    var s5: Cursor<T5>

    /**
     * Every zip cursor is built over sublists of one common length, all unconsumed,
     * so the components always cover the same index range.
     */
    ghost predicate Valid()
      reads this
    {
      && CursorValid(s1) && CursorValid(s2) && CursorValid(s3) && CursorValid(s4) && CursorValid(s5)
      && |s1.list| == |s2.list| && |s1.list| == |s3.list| && |s1.list| == |s4.list| && |s1.list| == |s5.list| && s1.count == s2.count && s1.count == s3.count && s1.count == s4.count && s1.count == s5.count
    }

    /** The tuples still to come. */
    ghost function Output(): seq<Tuple5<T1, T2, T3, T4, T5>>
      reads this
      requires Valid()
    {
      Zip5(Remaining(s1), Remaining(s2), Remaining(s3), Remaining(s4), Remaining(s5))
    }

    constructor (s1: Cursor<T1>, s2: Cursor<T2>, s3: Cursor<T3>, s4: Cursor<T4>, s5: Cursor<T5>)
      requires CursorValid(s1) && CursorValid(s2) && CursorValid(s3) && CursorValid(s4) && CursorValid(s5)
      requires |s1.list| == |s2.list| && |s1.list| == |s3.list| && |s1.list| == |s4.list| && |s1.list| == |s5.list| && s1.count == s2.count && s1.count == s3.count && s1.count == s4.count && s1.count == s5.count
      ensures this.s1 == s1 && this.s2 == s2 && this.s3 == s3 && this.s4 == s4 && this.s5 == s5
      ensures Valid()
    {
      this.s1, this.s2, this.s3, this.s4, this.s5 := s1, s2, s3, s4, s5;
    }

    /** Advances every component (no short circuit); emits a tuple only if all of them delivered. */
    method TryAdvance() returns (r: Option<Tuple5<T1, T2, T3, T4, T5>>)
      requires Valid()
      modifies this
      ensures Valid()
      ensures r == if old(Output()) == [] then None else Some(old(Output())[0])
      ensures Output() == if old(Output()) == [] then [] else old(Output())[1..]
    {
      Zip5Step(Remaining(s1), Remaining(s2), Remaining(s3), Remaining(s4), Remaining(s5));
      var accepted := true;
      var (a1, c1) := Advance(s1);
      s1 := c1;
      accepted := accepted && a1.Some?;
      var (a2, c2) := Advance(s2);
      s2 := c2;
      accepted := accepted && a2.Some?;
      var (a3, c3) := Advance(s3);
      s3 := c3;
      accepted := accepted && a3.Some?;
      var (a4, c4) := Advance(s4);
      s4 := c4;
      accepted := accepted && a4.Some?;
      var (a5, c5) := Advance(s5);
      s5 := c5;
      accepted := accepted && a5.Some?;
      if accepted {
        r := Some(Tuple5(a1.value, a2.value, a3.value, a4.value, a5.value));
      } else {
        r := None;
      }
    }

    /**
     * Splits every component in turn. The components split alike, so either the first one
     * throws, or all return null (`Objects.requireNonNull` in the constructor throws
     * `NullPointerException`, which is caught), or all hand off equally long prefixes.
     */
    method TrySplit() returns (r: SplitOutcome<Zip5Spliterator<T1, T2, T3, T4, T5>>)
      requires Valid()
      modifies this
      ensures Valid()
      ensures r.Declined? <==> old(Declines(|s1.list|, s1.count))
      ensures r.Thrown? <==> old(Throws(|s1.list|, s1.count))
      ensures r.Thrown? ==> r.failure == IllegalArgument
      ensures !r.Split? ==> Output() == old(Output())
      ensures r.Split? ==> fresh(r.prefix) && r.prefix.Valid()
      ensures r.Split? ==> r.prefix.Output() + Output() == old(Output())
      ensures r.Split? ==> |r.prefix.Output()| == old(SplitPoint(|s1.list|, s1.count) - s1.count)
    {
      var o1 := SplitCursor(s1);
      if o1.SplitFails? {
        return Thrown(o1.failure);
      }
      if o1.Halves? {
        s1 := o1.rest;
      }
      var o2 := SplitCursor(s2);
      assert !o2.SplitFails? && (o2.NoSplit? <==> o1.NoSplit?);  // s2 splits exactly like s1
      if o2.Halves? {
        s2 := o2.rest;
      }
      var o3 := SplitCursor(s3);
      assert !o3.SplitFails? && (o3.NoSplit? <==> o1.NoSplit?);  // s3 splits exactly like s1
      if o3.Halves? {
        s3 := o3.rest;
      }
      var o4 := SplitCursor(s4);
      assert !o4.SplitFails? && (o4.NoSplit? <==> o1.NoSplit?);  // s4 splits exactly like s1
      if o4.Halves? {
        s4 := o4.rest;
      }
      var o5 := SplitCursor(s5);
      assert !o5.SplitFails? && (o5.NoSplit? <==> o1.NoSplit?);  // s5 splits exactly like s1
      if o5.Halves? {
        s5 := o5.rest;
      }
      if o1.NoSplit? || o2.NoSplit? || o3.NoSplit? || o4.NoSplit? || o5.NoSplit? {
        return Declined;
      }
      Zip5Append(Remaining(o1.prefix), Remaining(o1.rest), Remaining(o2.prefix), Remaining(o2.rest), Remaining(o3.prefix), Remaining(o3.rest), Remaining(o4.prefix), Remaining(o4.rest), Remaining(o5.prefix), Remaining(o5.rest));
      var z := new Zip5Spliterator(o1.prefix, o2.prefix, o3.prefix, o4.prefix, o5.prefix);
      return Split(z);
    }

    /** The size of the first component, which is the number of tuples left. */
    method EstimateSize() returns (k: int)
      requires Valid()
      ensures k == |Output()|
    {
      k := |s1.list| - s1.count;
    }

    method Characteristics() returns (c: bv32)
      ensures c == ZipCursorCharacteristics()
    {
      c := ORDERED | NONNULL | SUBSIZED;
    }
  }
}
