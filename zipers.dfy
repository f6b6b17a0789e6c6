/**
 * `Tuple2Ziper` .. `Tuple5Ziper`, the unsized lockstep iterators, and `stream(Stream...)`,
 * which zips arbitrary spliterators through them.
 */
module Zipers {
  import opened Wrappers
  import opened Characteristics
  import opened Tuples
  import opened Sources

  lemma SizedIffAllSized2(f1: bv32, f2: bv32)
    ensures Has(ZipCharacteristics([f1, f2]), SIZED) <==> Has(f1, SIZED) && Has(f2, SIZED)
  {
    var cs := [f1, f2];
    ZipCharacteristicsFlags(cs);
    assert cs[0] == f1 && cs[1] == f2;
  }

  lemma SizedIffAllSized3(f1: bv32, f2: bv32, f3: bv32)
    ensures Has(ZipCharacteristics([f1, f2, f3]), SIZED) <==> Has(f1, SIZED) && Has(f2, SIZED) && Has(f3, SIZED)
  {
    var cs := [f1, f2, f3];
    ZipCharacteristicsFlags(cs);
    assert cs[0] == f1 && cs[1] == f2 && cs[2] == f3;
  }

  lemma SizedIffAllSized4(f1: bv32, f2: bv32, f3: bv32, f4: bv32)
    ensures Has(ZipCharacteristics([f1, f2, f3, f4]), SIZED) <==> Has(f1, SIZED) && Has(f2, SIZED) && Has(f3, SIZED) && Has(f4, SIZED)
  {
    var cs := [f1, f2, f3, f4];
    ZipCharacteristicsFlags(cs);
    assert cs[0] == f1 && cs[1] == f2 && cs[2] == f3 && cs[3] == f4;
  }

  lemma SizedIffAllSized5(f1: bv32, f2: bv32, f3: bv32, f4: bv32, f5: bv32)
    ensures Has(ZipCharacteristics([f1, f2, f3, f4, f5]), SIZED) <==> Has(f1, SIZED) && Has(f2, SIZED) && Has(f3, SIZED) && Has(f4, SIZED) && Has(f5, SIZED)
  {
    var cs := [f1, f2, f3, f4, f5];
    ZipCharacteristicsFlags(cs);
    assert cs[0] == f1 && cs[1] == f2 && cs[2] == f3 && cs[3] == f4 && cs[4] == f5;
  }

  /** `Tuple2Ziper`: 2 iterators read in lockstep; each field is what that iterator has left. */
  class Tuple2Ziper<T1, T2> {
    var i1: seq<T1>
    var i2: seq<T2>

    /** The tuples still to come. */
    ghost function Output(): seq<Tuple2<T1, T2>>
      reads this
    {
      Zip2(i1, i2)
    }

    constructor (i1: seq<T1>, i2: seq<T2>)
      ensures this.i1 == i1 && this.i2 == i2
    {
      this.i1, this.i2 := i1, i2;
    }

    /** `hasNext`: every iterator has an element left (the conjunction short-circuits). */
    method HasNext() returns (b: bool)
      ensures b <==> Output() != []
    {
      b := i1 != [] && i2 != [];
    }

    /**
     * `next`: one element from each iterator, in order. The first exhausted iterator throws
     * `NoSuchElementException`, after the ones before it have already moved on.
     */
    method Next() returns (r: Result<Tuple2<T1, T2>>)
      modifies this
      ensures old(Output()) == [] <==> r.Err?
      ensures r.Err? ==> r.failure == NoSuchElement
      ensures r.Ok? ==> r.value == old(Output())[0] && Output() == old(Output())[1..]
    {
      Zip2Step(i1, i2);
      if i1 == [] {
        return Err(NoSuchElement);
      }
      var x1 := i1[0];
      i1 := i1[1..];
      if i2 == [] {
        return Err(NoSuchElement);
      }
      var x2 := i2[0];
      i2 := i2[1..];
      r := Ok(Tuple2(x1, x2));
    }

    /** `Iterator.forEachRemaining`'s default, `while (hasNext()) action.accept(next())`. */
    method ForEachRemaining() returns (delivered: seq<Tuple2<T1, T2>>)
      modifies this
      ensures delivered == old(Output()) && Output() == []
    {
      delivered := [];
      var more := HasNext();
      while more
        invariant delivered + Output() == old(Output())
        invariant more <==> Output() != []
        decreases |Output()|
      {
        ghost var before := Output();
        var t := Next();
        MoveFirst(delivered, before);
        delivered := delivered + [t.value];
        more := HasNext();
      }
    }
  }

  /**
   * `stream(s1, .., s2)` over arbitrary spliterators: a ziper over their iterators, the merged
   * characteristics, and the size it reports: the smallest exact size when the merge is SIZED
   * (every input is), otherwise unknown.
   */
  method StreamOfSources2<T1, T2>(s1: Source<T1>, s2: Source<T2>)
    returns (z: Tuple2Ziper<T1, T2>, c: bv32, size: Option<int>)
    ensures fresh(z) && z.Output() == Zip2(Elements(s1), Elements(s2))
    ensures c == ZipCharacteristics([Flags(s1), Flags(s2)])
    ensures size.Some? <==> Has(Flags(s1), SIZED) && Has(Flags(s2), SIZED)
    ensures size.Some? ==> size.value == Min(|z.Output()|, LONG_MAX)
  {
    c := ZipCharacteristics([Flags(s1), Flags(s2)]);
    z := new Tuple2Ziper(Elements(s1), Elements(s2));
    SizedIffAllSized2(Flags(s1), Flags(s2));
    EstimateIsCappedSize(s1);
    EstimateIsCappedSize(s2);
    if c & SIZED != 0 {
      size := Some(Min(Estimate(s1), Estimate(s2)));
    } else {
      size := None;
    }
  }

  /** `Tuple3Ziper`: 3 iterators read in lockstep; each field is what that iterator has left. */
  class Tuple3Ziper<T1, T2, T3> {
    var i1: seq<T1>
    var i2: seq<T2>
    var i3: seq<T3>

    /** The tuples still to come. */
    ghost function Output(): seq<Tuple3<T1, T2, T3>>
      reads this
    {
      Zip3(i1, i2, i3)
    }

    constructor (i1: seq<T1>, i2: seq<T2>, i3: seq<T3>)
      ensures this.i1 == i1 && this.i2 == i2 && this.i3 == i3
    {
      this.i1, this.i2, this.i3 := i1, i2, i3;
    }

    /** `hasNext`: every iterator has an element left (the conjunction short-circuits). */
    method HasNext() returns (b: bool)
      ensures b <==> Output() != []
    {
      b := i1 != [] && i2 != [] && i3 != [];
    }

    /**
     * `next`: one element from each iterator, in order. The first exhausted iterator throws
     * `NoSuchElementException`, after the ones before it have already moved on.
     */
    method Next() returns (r: Result<Tuple3<T1, T2, T3>>)
      modifies this
      ensures old(Output()) == [] <==> r.Err?
      ensures r.Err? ==> r.failure == NoSuchElement
      ensures r.Ok? ==> r.value == old(Output())[0] && Output() == old(Output())[1..]
    {
      Zip3Step(i1, i2, i3);
      if i1 == [] {
        return Err(NoSuchElement);
      }
      var x1 := i1[0];
      i1 := i1[1..];
      if i2 == [] {
        return Err(NoSuchElement);
      }
      var x2 := i2[0];
      i2 := i2[1..];
      if i3 == [] {
        return Err(NoSuchElement);
      }
      var x3 := i3[0];
      i3 := i3[1..];
      r := Ok(Tuple3(x1, x2, x3));
    }

    /** `Iterator.forEachRemaining`'s default, `while (hasNext()) action.accept(next())`. */
    method ForEachRemaining() returns (delivered: seq<Tuple3<T1, T2, T3>>)
      modifies this
      ensures delivered == old(Output()) && Output() == []
    {
      delivered := [];
      var more := HasNext();
      while more
        invariant delivered + Output() == old(Output())
        invariant more <==> Output() != []
        decreases |Output()|
      {
        ghost var before := Output();
        var t := Next();
        MoveFirst(delivered, before);
        delivered := delivered + [t.value];
        more := HasNext();
      }
    }
  }

  /**
   * `stream(s1, .., s3)` over arbitrary spliterators: a ziper over their iterators, the merged
   * characteristics, and the size it reports: the smallest exact size when the merge is SIZED
   * (every input is), otherwise unknown.
   */
  method StreamOfSources3<T1, T2, T3>(s1: Source<T1>, s2: Source<T2>, s3: Source<T3>)
    returns (z: Tuple3Ziper<T1, T2, T3>, c: bv32, size: Option<int>)
    ensures fresh(z) && z.Output() == Zip3(Elements(s1), Elements(s2), Elements(s3))
    ensures c == ZipCharacteristics([Flags(s1), Flags(s2), Flags(s3)])
    ensures size.Some? <==> Has(Flags(s1), SIZED) && Has(Flags(s2), SIZED) && Has(Flags(s3), SIZED)
    ensures size.Some? ==> size.value == Min(|z.Output()|, LONG_MAX)
  {
    c := ZipCharacteristics([Flags(s1), Flags(s2), Flags(s3)]);
    z := new Tuple3Ziper(Elements(s1), Elements(s2), Elements(s3));
    SizedIffAllSized3(Flags(s1), Flags(s2), Flags(s3));
    EstimateIsCappedSize(s1);
    EstimateIsCappedSize(s2);
    EstimateIsCappedSize(s3);
    if c & SIZED != 0 {
      size := Some(Min(Min(Estimate(s1), Estimate(s2)), Estimate(s3)));
    } else {
      size := None;
    }
  }

  /** `Tuple4Ziper`: 4 iterators read in lockstep; each field is what that iterator has left. */
  class Tuple4Ziper<T1, T2, T3, T4> {
    var i1: seq<T1>
    var i2: seq<T2>
    var i3: seq<T3>
    var i4: seq<T4>

    /** The tuples still to come. */
    ghost function Output(): seq<Tuple4<T1, T2, T3, T4>>
      reads this
    {
      Zip4(i1, i2, i3, i4)
    }

    constructor (i1: seq<T1>, i2: seq<T2>, i3: seq<T3>, i4: seq<T4>)
      ensures this.i1 == i1 && this.i2 == i2 && this.i3 == i3 && this.i4 == i4
    {
      this.i1, this.i2, this.i3, this.i4 := i1, i2, i3, i4;
    }

    /** `hasNext`: every iterator has an element left (the conjunction short-circuits). */
    method HasNext() returns (b: bool)
      ensures b <==> Output() != []
    {
      b := i1 != [] && i2 != [] && i3 != [] && i4 != [];
    }

    /**
     * `next`: one element from each iterator, in order. The first exhausted iterator throws
     * `NoSuchElementException`, after the ones before it have already moved on.
     */
    method Next() returns (r: Result<Tuple4<T1, T2, T3, T4>>)
      modifies this
      ensures old(Output()) == [] <==> r.Err?
      ensures r.Err? ==> r.failure == NoSuchElement
      ensures r.Ok? ==> r.value == old(Output())[0] && Output() == old(Output())[1..]
    {
      Zip4Step(i1, i2, i3, i4);
      if i1 == [] {
        return Err(NoSuchElement);
      }
      var x1 := i1[0];
      i1 := i1[1..];
      if i2 == [] {
        return Err(NoSuchElement);
      }
      var x2 := i2[0];
      i2 := i2[1..];
      if i3 == [] {
        return Err(NoSuchElement);
      }
      var x3 := i3[0];
      i3 := i3[1..];
      if i4 == [] {
        return Err(NoSuchElement);
      }
      var x4 := i4[0];
      i4 := i4[1..];
      r := Ok(Tuple4(x1, x2, x3, x4));
    }

    /** `Iterator.forEachRemaining`'s default, `while (hasNext()) action.accept(next())`. */
    method ForEachRemaining() returns (delivered: seq<Tuple4<T1, T2, T3, T4>>)
      modifies this
      ensures delivered == old(Output()) && Output() == []
    {
      delivered := [];
      var more := HasNext();
      while more
        invariant delivered + Output() == old(Output())
        invariant more <==> Output() != []
        decreases |Output()|
      {
        ghost var before := Output();
        var t := Next();
        MoveFirst(delivered, before);
        delivered := delivered + [t.value];
        more := HasNext();
      }
    }
  }

  /**
   * `stream(s1, .., s4)` over arbitrary spliterators: a ziper over their iterators, the merged
   * characteristics, and the size it reports: the smallest exact size when the merge is SIZED
   * (every input is), otherwise unknown.
   */
  method StreamOfSources4<T1, T2, T3, T4>(s1: Source<T1>, s2: Source<T2>, s3: Source<T3>, s4: Source<T4>)
    returns (z: Tuple4Ziper<T1, T2, T3, T4>, c: bv32, size: Option<int>)
    ensures fresh(z) && z.Output() == Zip4(Elements(s1), Elements(s2), Elements(s3), Elements(s4))
    ensures c == ZipCharacteristics([Flags(s1), Flags(s2), Flags(s3), Flags(s4)])
    ensures size.Some? <==> Has(Flags(s1), SIZED) && Has(Flags(s2), SIZED) && Has(Flags(s3), SIZED) && Has(Flags(s4), SIZED)
    ensures size.Some? ==> size.value == Min(|z.Output()|, LONG_MAX)
  {
    c := ZipCharacteristics([Flags(s1), Flags(s2), Flags(s3), Flags(s4)]);
    z := new Tuple4Ziper(Elements(s1), Elements(s2), Elements(s3), Elements(s4));
    SizedIffAllSized4(Flags(s1), Flags(s2), Flags(s3), Flags(s4));
    EstimateIsCappedSize(s1);
    EstimateIsCappedSize(s2);
    EstimateIsCappedSize(s3);
    EstimateIsCappedSize(s4);
    if c & SIZED != 0 {
      size := Some(Min(Min(Min(Estimate(s1), Estimate(s2)), Estimate(s3)), Estimate(s4)));
    } else {
      size := None;
    }
  }

  /** `Tuple5Ziper`: 5 iterators read in lockstep; each field is what that iterator has left. */
  class Tuple5Ziper<T1, T2, T3, T4, T5> {
    var i1: seq<T1>
    var i2: seq<T2>
    var i3: seq<T3>
    var i4: seq<T4>
    var i5: seq<T5>

    /** The tuples still to come. */
    ghost function Output(): seq<Tuple5<T1, T2, T3, T4, T5>>
      reads this
    {
      Zip5(i1, i2, i3, i4, i5)
    }

    constructor (i1: seq<T1>, i2: seq<T2>, i3: seq<T3>, i4: seq<T4>, i5: seq<T5>)
      ensures this.i1 == i1 && this.i2 == i2 && this.i3 == i3 && this.i4 == i4 && this.i5 == i5
    {
      this.i1, this.i2, this.i3, this.i4, this.i5 := i1, i2, i3, i4, i5;
    }

    /** `hasNext`: every iterator has an element left (the conjunction short-circuits). */
    method HasNext() returns (b: bool)
      ensures b <==> Output() != []
    {
      b := i1 != [] && i2 != [] && i3 != [] && i4 != [] && i5 != [];
    }

    /**
     * `next`: one element from each iterator, in order. The first exhausted iterator throws
     * `NoSuchElementException`, after the ones before it have already moved on.
     */
    method Next() returns (r: Result<Tuple5<T1, T2, T3, T4, T5>>)
      modifies this
      ensures old(Output()) == [] <==> r.Err?
      ensures r.Err? ==> r.failure == NoSuchElement
      ensures r.Ok? ==> r.value == old(Output())[0] && Output() == old(Output())[1..]
    {
      Zip5Step(i1, i2, i3, i4, i5);
      if i1 == [] {
        return Err(NoSuchElement);
      }
      var x1 := i1[0];
      i1 := i1[1..];
      if i2 == [] {
        return Err(NoSuchElement);
      }
      var x2 := i2[0];
      i2 := i2[1..];
      if i3 == [] {
        return Err(NoSuchElement);
      }
      var x3 := i3[0];
      i3 := i3[1..];
      if i4 == [] {
        return Err(NoSuchElement);
      }
      var x4 := i4[0];
      i4 := i4[1..];
      if i5 == [] {
        return Err(NoSuchElement);
      }
      var x5 := i5[0];
      i5 := i5[1..];
      r := Ok(Tuple5(x1, x2, x3, x4, x5));
    }

    /** `Iterator.forEachRemaining`'s default, `while (hasNext()) action.accept(next())`. */
    method ForEachRemaining() returns (delivered: seq<Tuple5<T1, T2, T3, T4, T5>>)
      modifies this
      ensures delivered == old(Output()) && Output() == []
    {
      delivered := [];
      var more := HasNext();
      while more
        invariant delivered + Output() == old(Output())
        invariant more <==> Output() != []
        decreases |Output()|
      {
        ghost var before := Output();
        var t := Next();
        MoveFirst(delivered, before);
        delivered := delivered + [t.value];
        more := HasNext();
      }
    }
  }

  /**
   * `stream(s1, .., s5)` over arbitrary spliterators: a ziper over their iterators, the merged
   * characteristics, and the size it reports: the smallest exact size when the merge is SIZED
   * (every input is), otherwise unknown.
   */
  method StreamOfSources5<T1, T2, T3, T4, T5>(s1: Source<T1>, s2: Source<T2>, s3: Source<T3>, s4: Source<T4>, s5: Source<T5>)
    returns (z: Tuple5Ziper<T1, T2, T3, T4, T5>, c: bv32, size: Option<int>)
    ensures fresh(z) && z.Output() == Zip5(Elements(s1), Elements(s2), Elements(s3), Elements(s4), Elements(s5))
    ensures c == ZipCharacteristics([Flags(s1), Flags(s2), Flags(s3), Flags(s4), Flags(s5)])
    ensures size.Some? <==> Has(Flags(s1), SIZED) && Has(Flags(s2), SIZED) && Has(Flags(s3), SIZED) && Has(Flags(s4), SIZED) && Has(Flags(s5), SIZED)
    ensures size.Some? ==> size.value == Min(|z.Output()|, LONG_MAX)
  {
    c := ZipCharacteristics([Flags(s1), Flags(s2), Flags(s3), Flags(s4), Flags(s5)]);
    z := new Tuple5Ziper(Elements(s1), Elements(s2), Elements(s3), Elements(s4), Elements(s5));
    SizedIffAllSized5(Flags(s1), Flags(s2), Flags(s3), Flags(s4), Flags(s5));
    EstimateIsCappedSize(s1);
    EstimateIsCappedSize(s2);
    EstimateIsCappedSize(s3);
    EstimateIsCappedSize(s4);
    EstimateIsCappedSize(s5);
    if c & SIZED != 0 {
      size := Some(Min(Min(Min(Min(Estimate(s1), Estimate(s2)), Estimate(s3)), Estimate(s4)), Estimate(s5)));
    } else {
      size := None;
    }
  }
}
