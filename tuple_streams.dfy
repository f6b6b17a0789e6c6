/**
 * The `Tuple` front ends that build zip and window streams: `stream(List...)`, which picks a
 * zip cursor or the iterator zip, and `window2Stream` .. `window5Stream` over lists and over
 * arbitrary streams.
 */
module TupleStreams {
  import opened Wrappers
  import opened Characteristics
  import opened Tuples
  import opened HalfSplit
  import opened ZipCursors
  import opened Zipers
  import opened Sources
  import opened Sliding
  import opened WindowCursors

  /** The characteristics of a list's own spliterator: ORDERED, SIZED and SUBSIZED. */
  const LIST_FLAGS: bv32 := ORDERED | SIZED | SUBSIZED

  datatype ZipStream2<T1, T2> =
    | NoTuples                                                                  // `Stream.empty()`
    | ViaIterators(ziper: Tuple2Ziper<T1, T2>, flags: bv32, size: Option<int>)  // `stream(l1.stream(), ..)`
    | ViaCursors(zip: Zip2Spliterator<T1, T2>)                                   // `new Zip2Spliterator<>(..)`

  /** The stream `r` delivers exactly `ts`. */
  ghost predicate Yields2<T1, T2>(r: ZipStream2<T1, T2>, ts: seq<Tuple2<T1, T2>>)
    reads if r.ViaIterators? then {r.ziper} else {}
    reads if r.ViaCursors? then {r.zip} else {}
  {
    match r
    case NoTuples => ts == []
    case ViaIterators(z, _, _) => z.Output() == ts
    case ViaCursors(z) => z.Valid() && z.Output() == ts
  }

  /**
   * What `stream(l1, .., l2)` over lists builds: no stream at all when a list is empty, the
   * iterator zip of the lists' own streams when every list reports `Integer.MAX_VALUE`
   * elements, and otherwise a zip cursor over the first `min` elements of each list.
   */
  method StreamOfLists2<T1, T2>(l1: seq<T1>, l2: seq<T2>) returns (r: ZipStream2<T1, T2>)
    ensures r.NoTuples? <==> l1 == [] || l2 == []
    ensures r.ViaIterators? <==> JavaSize(l1) == INT_MAX && JavaSize(l2) == INT_MAX
    ensures r.ViaIterators? ==> fresh(r.ziper)
    ensures r.ViaCursors? ==> fresh(r.zip)
    ensures Yields2(r, Zip2(l1, l2))
  {
    var min := INT_MAX;
    min := Min(min, JavaSize(l1));
    min := Min(min, JavaSize(l2));
    if min == 0 {
      r := ZipStream2.NoTuples;
    } else if min == INT_MAX {
      var z, c, size := StreamOfSources2(Leaf(l1, LIST_FLAGS), Leaf(l2, LIST_FLAGS));
      r := ZipStream2.ViaIterators(z, c, size);
    } else {
      assert min == Min(|l1|, |l2|);
      Zip2Truncate(l1, l2, min);
      var zip := new Zip2Spliterator(Cursor(l1[..min], 0), Cursor(l2[..min], 0));
      r := ZipStream2.ViaCursors(zip);
    }
  }

  datatype ZipStream3<T1, T2, T3> =
    | NoTuples                                                                  // `Stream.empty()`
    | ViaIterators(ziper: Tuple3Ziper<T1, T2, T3>, flags: bv32, size: Option<int>)  // `stream(l1.stream(), ..)`
    | ViaCursors(zip: Zip3Spliterator<T1, T2, T3>)                                   // `new Zip3Spliterator<>(..)`

  /** The stream `r` delivers exactly `ts`. */
  ghost predicate Yields3<T1, T2, T3>(r: ZipStream3<T1, T2, T3>, ts: seq<Tuple3<T1, T2, T3>>)
    reads if r.ViaIterators? then {r.ziper} else {}
    reads if r.ViaCursors? then {r.zip} else {}
  {
    match r
    case NoTuples => ts == []
    case ViaIterators(z, _, _) => z.Output() == ts
    case ViaCursors(z) => z.Valid() && z.Output() == ts
  }

  /**
   * What `stream(l1, .., l3)` over lists builds: no stream at all when a list is empty, the
   * iterator zip of the lists' own streams when every list reports `Integer.MAX_VALUE`
   * elements, and otherwise a zip cursor over the first `min` elements of each list.
   */
  method StreamOfLists3<T1, T2, T3>(l1: seq<T1>, l2: seq<T2>, l3: seq<T3>) returns (r: ZipStream3<T1, T2, T3>)
    ensures r.NoTuples? <==> l1 == [] || l2 == [] || l3 == []
    ensures r.ViaIterators? <==> JavaSize(l1) == INT_MAX && JavaSize(l2) == INT_MAX && JavaSize(l3) == INT_MAX
    ensures r.ViaIterators? ==> fresh(r.ziper)
    ensures r.ViaCursors? ==> fresh(r.zip)
    ensures Yields3(r, Zip3(l1, l2, l3))
  {
    var min := INT_MAX;
    min := Min(min, JavaSize(l1));
    min := Min(min, JavaSize(l2));
    min := Min(min, JavaSize(l3));
    if min == 0 {
      r := ZipStream3.NoTuples;
    } else if min == INT_MAX {
      var z, c, size := StreamOfSources3(Leaf(l1, LIST_FLAGS), Leaf(l2, LIST_FLAGS), Leaf(l3, LIST_FLAGS));
      r := ZipStream3.ViaIterators(z, c, size);
    } else {
      assert min == Min(Min(|l1|, |l2|), |l3|);
      Zip3Truncate(l1, l2, l3, min);
      var zip := new Zip3Spliterator(Cursor(l1[..min], 0), Cursor(l2[..min], 0), Cursor(l3[..min], 0));
      r := ZipStream3.ViaCursors(zip);
    }
  }

  datatype ZipStream4<T1, T2, T3, T4> =
    | NoTuples                                                                  // `Stream.empty()`
    | ViaIterators(ziper: Tuple4Ziper<T1, T2, T3, T4>, flags: bv32, size: Option<int>)  // `stream(l1.stream(), ..)`
    | ViaCursors(zip: Zip4Spliterator<T1, T2, T3, T4>)                                   // `new Zip4Spliterator<>(..)`

  /** The stream `r` delivers exactly `ts`. */
  ghost predicate Yields4<T1, T2, T3, T4>(r: ZipStream4<T1, T2, T3, T4>, ts: seq<Tuple4<T1, T2, T3, T4>>)
    reads if r.ViaIterators? then {r.ziper} else {}
    reads if r.ViaCursors? then {r.zip} else {}
  {
    match r
    case NoTuples => ts == []
    case ViaIterators(z, _, _) => z.Output() == ts
    case ViaCursors(z) => z.Valid() && z.Output() == ts
  }

  /**
   * What `stream(l1, .., l4)` over lists builds: no stream at all when a list is empty, the
   * iterator zip of the lists' own streams when every list reports `Integer.MAX_VALUE`
   * elements, and otherwise a zip cursor over the first `min` elements of each list.
   */
  method StreamOfLists4<T1, T2, T3, T4>(l1: seq<T1>, l2: seq<T2>, l3: seq<T3>, l4: seq<T4>) returns (r: ZipStream4<T1, T2, T3, T4>)
    ensures r.NoTuples? <==> l1 == [] || l2 == [] || l3 == [] || l4 == []
    ensures r.ViaIterators? <==> JavaSize(l1) == INT_MAX && JavaSize(l2) == INT_MAX && JavaSize(l3) == INT_MAX && JavaSize(l4) == INT_MAX
    ensures r.ViaIterators? ==> fresh(r.ziper)
    ensures r.ViaCursors? ==> fresh(r.zip)
    ensures Yields4(r, Zip4(l1, l2, l3, l4))
  {
    var min := INT_MAX;
    min := Min(min, JavaSize(l1));
    min := Min(min, JavaSize(l2));
    min := Min(min, JavaSize(l3));
    min := Min(min, JavaSize(l4));
    if min == 0 {
      r := ZipStream4.NoTuples;
    } else if min == INT_MAX {
      var z, c, size := StreamOfSources4(Leaf(l1, LIST_FLAGS), Leaf(l2, LIST_FLAGS), Leaf(l3, LIST_FLAGS), Leaf(l4, LIST_FLAGS));
      r := ZipStream4.ViaIterators(z, c, size);
    } else {
      assert min == Min(Min(Min(|l1|, |l2|), |l3|), |l4|);
      Zip4Truncate(l1, l2, l3, l4, min);
      var zip := new Zip4Spliterator(Cursor(l1[..min], 0), Cursor(l2[..min], 0), Cursor(l3[..min], 0), Cursor(l4[..min], 0));
      r := ZipStream4.ViaCursors(zip);
    }
  }

  datatype ZipStream5<T1, T2, T3, T4, T5> =
    | NoTuples                                                                  // `Stream.empty()`
    | ViaIterators(ziper: Tuple5Ziper<T1, T2, T3, T4, T5>, flags: bv32, size: Option<int>)  // `stream(l1.stream(), ..)`
    | ViaCursors(zip: Zip5Spliterator<T1, T2, T3, T4, T5>)                                   // `new Zip5Spliterator<>(..)`

  /** The stream `r` delivers exactly `ts`. */
  ghost predicate Yields5<T1, T2, T3, T4, T5>(r: ZipStream5<T1, T2, T3, T4, T5>, ts: seq<Tuple5<T1, T2, T3, T4, T5>>)
    reads if r.ViaIterators? then {r.ziper} else {}
    reads if r.ViaCursors? then {r.zip} else {}
  {
    match r
    case NoTuples => ts == []
    case ViaIterators(z, _, _) => z.Output() == ts
    case ViaCursors(z) => z.Valid() && z.Output() == ts
  }

  /**
   * What `stream(l1, .., l5)` over lists builds: no stream at all when a list is empty, the
   * iterator zip of the lists' own streams when every list reports `Integer.MAX_VALUE`
   * elements, and otherwise a zip cursor over the first `min` elements of each list.
   */
  method StreamOfLists5<T1, T2, T3, T4, T5>(l1: seq<T1>, l2: seq<T2>, l3: seq<T3>, l4: seq<T4>, l5: seq<T5>) returns (r: ZipStream5<T1, T2, T3, T4, T5>)
    ensures r.NoTuples? <==> l1 == [] || l2 == [] || l3 == [] || l4 == [] || l5 == []
    ensures r.ViaIterators? <==> JavaSize(l1) == INT_MAX && JavaSize(l2) == INT_MAX && JavaSize(l3) == INT_MAX && JavaSize(l4) == INT_MAX && JavaSize(l5) == INT_MAX
    ensures r.ViaIterators? ==> fresh(r.ziper)
    ensures r.ViaCursors? ==> fresh(r.zip)
    ensures Yields5(r, Zip5(l1, l2, l3, l4, l5))
  {
    var min := INT_MAX;
    min := Min(min, JavaSize(l1));
    min := Min(min, JavaSize(l2));
    min := Min(min, JavaSize(l3));
    min := Min(min, JavaSize(l4));
    min := Min(min, JavaSize(l5));
    if min == 0 {
      r := ZipStream5.NoTuples;
    } else if min == INT_MAX {
      var z, c, size := StreamOfSources5(Leaf(l1, LIST_FLAGS), Leaf(l2, LIST_FLAGS), Leaf(l3, LIST_FLAGS), Leaf(l4, LIST_FLAGS), Leaf(l5, LIST_FLAGS));
      r := ZipStream5.ViaIterators(z, c, size);
    } else {
      assert min == Min(Min(Min(Min(|l1|, |l2|), |l3|), |l4|), |l5|);
      Zip5Truncate(l1, l2, l3, l4, l5, min);
      var zip := new Zip5Spliterator(Cursor(l1[..min], 0), Cursor(l2[..min], 0), Cursor(l3[..min], 0), Cursor(l4[..min], 0), Cursor(l5[..min], 0));
      r := ZipStream5.ViaCursors(zip);
    }
  }

  // ---------------------------------------------------------------- windows over lists

  /** The runs of 2 consecutive elements of `s`, each as a tuple. */
  function WindowTuples2<T>(s: seq<T>): seq<Tuple2<T, T>>
  {
    if |s| < 2 then [] else seq(|s| - 1, i requires 0 <= i < |s| - 1 => Tuple2(s[i], s[i + 1]))
  }

  /** They are the sliding windows of width 2: one tuple per window, holding that window's elements in order. */
  lemma WindowTuples2AreWindows<T>(s: seq<T>)
    ensures var r := WindowTuples2(s); |r| == |Windows(s, 2)|
    ensures var r := WindowTuples2(s);
      forall i :: 0 <= i < |r| ==> |Windows(s, 2)[i]| == 2 && r[i] == Tuple2(Windows(s, 2)[i][0], Windows(s, 2)[i][1])
  {
    WindowsShape(s, 2);
  }

  /** Zipping a list with its suffixes from 1 to 1, all cut at `size`, gives its windows. */
  lemma ZipShifts2<T>(list: seq<T>, size: nat)
    requires 2 <= size <= |list|
    ensures Zip2(list, list[1..size]) == WindowTuples2(list[..size])
  {
    var z, w := Zip2(list, list[1..size]), WindowTuples2(list[..size]);
    assert |z| == size - 1 == |w|;
    forall i | 0 <= i < |z| ensures z[i] == w[i] {
    }
  }

  /**
   * `window2Stream(list)`: an empty stream below 2 elements, otherwise `stream` over the list
   * and its sublists from 1 to 1; the windows of width 2.
   */
  method Window2Stream<T>(list: seq<T>) returns (r: ZipStream2<T, T>)
    ensures r.NoTuples? <==> |list| < 2
    ensures r.ViaIterators? == false
    ensures r.ViaCursors? ==> fresh(r.zip)
    ensures Yields2(r, WindowTuples2(list[..JavaSize(list)]))
  {
    var size := JavaSize(list);
    if size < 2 {
      return ZipStream2.NoTuples;
    }
    r := StreamOfLists2(list, list[1..size]);
    ZipShifts2(list, size);
  }

  /** The runs of 3 consecutive elements of `s`, each as a tuple. */
  function WindowTuples3<T>(s: seq<T>): seq<Tuple3<T, T, T>>
  {
    if |s| < 3 then [] else seq(|s| - 2, i requires 0 <= i < |s| - 2 => Tuple3(s[i], s[i + 1], s[i + 2]))
  }

  /** They are the sliding windows of width 3: one tuple per window, holding that window's elements in order. */
  lemma WindowTuples3AreWindows<T>(s: seq<T>)
    ensures var r := WindowTuples3(s); |r| == |Windows(s, 3)|
    ensures var r := WindowTuples3(s);
      forall i :: 0 <= i < |r| ==> |Windows(s, 3)[i]| == 3 && r[i] == Tuple3(Windows(s, 3)[i][0], Windows(s, 3)[i][1], Windows(s, 3)[i][2])
  {
    WindowsShape(s, 3);
  }

  /** Zipping a list with its suffixes from 1 to 2, all cut at `size`, gives its windows. */
  lemma ZipShifts3<T>(list: seq<T>, size: nat)
    requires 3 <= size <= |list|
    ensures Zip3(list, list[1..size], list[2..size]) == WindowTuples3(list[..size])
  {
    var z, w := Zip3(list, list[1..size], list[2..size]), WindowTuples3(list[..size]);
    assert |z| == size - 2 == |w|;
    forall i | 0 <= i < |z| ensures z[i] == w[i] {
    }
  }

  /**
   * `window3Stream(list)`: an empty stream below 3 elements, otherwise `stream` over the list
   * and its sublists from 1 to 2; the windows of width 3.
   */
  method Window3Stream<T>(list: seq<T>) returns (r: ZipStream3<T, T, T>)
    ensures r.NoTuples? <==> |list| < 3
    ensures r.ViaIterators? == false
    ensures r.ViaCursors? ==> fresh(r.zip)
    ensures Yields3(r, WindowTuples3(list[..JavaSize(list)]))
  {
    var size := JavaSize(list);
    if size < 3 {
      return ZipStream3.NoTuples;
    }
    r := StreamOfLists3(list, list[1..size], list[2..size]);
    ZipShifts3(list, size);
  }

  /** The runs of 4 consecutive elements of `s`, each as a tuple. */
  function WindowTuples4<T>(s: seq<T>): seq<Tuple4<T, T, T, T>>
  {
    if |s| < 4 then [] else seq(|s| - 3, i requires 0 <= i < |s| - 3 => Tuple4(s[i], s[i + 1], s[i + 2], s[i + 3]))
  }

  /** They are the sliding windows of width 4: one tuple per window, holding that window's elements in order. */
  lemma WindowTuples4AreWindows<T>(s: seq<T>)
    ensures var r := WindowTuples4(s); |r| == |Windows(s, 4)|
    ensures var r := WindowTuples4(s);
      forall i :: 0 <= i < |r| ==> |Windows(s, 4)[i]| == 4 && r[i] == Tuple4(Windows(s, 4)[i][0], Windows(s, 4)[i][1], Windows(s, 4)[i][2], Windows(s, 4)[i][3])
  {
    WindowsShape(s, 4);
  }

  /** Zipping a list with its suffixes from 1 to 3, all cut at `size`, gives its windows. */
  lemma ZipShifts4<T>(list: seq<T>, size: nat)
    requires 4 <= size <= |list|
    ensures Zip4(list, list[1..size], list[2..size], list[3..size]) == WindowTuples4(list[..size])
  {
    var z, w := Zip4(list, list[1..size], list[2..size], list[3..size]), WindowTuples4(list[..size]);
    assert |z| == size - 3 == |w|;
    forall i | 0 <= i < |z| ensures z[i] == w[i] {
    }
  }

  /**
   * `window4Stream(list)` with the threshold the other widths use (four): every window of
   * the list. The rest of the model uses this one.
   */
  method Window4Stream<T>(list: seq<T>) returns (r: ZipStream4<T, T, T, T>)
    ensures r.NoTuples? <==> |list| < 4
    ensures r.ViaIterators? == false
    ensures r.ViaCursors? ==> fresh(r.zip)
    ensures Yields4(r, WindowTuples4(list[..JavaSize(list)]))
  {
    var size := JavaSize(list);
    if size < 4 {
      return ZipStream4.NoTuples;
    }
    r := StreamOfLists4(list, list[1..size], list[2..size], list[3..size]);
    ZipShifts4(list, size);
  }

  /**
   * `window4Stream(list)` as written: it returns an empty stream below five elements, so a
   * list of exactly four elements yields nothing although it has one window.
   */
  method Window4StreamAsWritten<T>(list: seq<T>) returns (r: ZipStream4<T, T, T, T>)
    ensures r.NoTuples? <==> |list| < 5
    ensures r.ViaIterators? == false
    ensures r.ViaCursors? ==> fresh(r.zip)
    ensures Yields4(r, if |list| < 5 then [] else WindowTuples4(list[..JavaSize(list)]))
  {
    var size := JavaSize(list);
    if size < 5 {
      return ZipStream4.NoTuples;
    }
    r := StreamOfLists4(list, list[1..size], list[2..size], list[3..size]);
    ZipShifts4(list, size);
  }

  /** The runs of 5 consecutive elements of `s`, each as a tuple. */
  function WindowTuples5<T>(s: seq<T>): seq<Tuple5<T, T, T, T, T>>
  {
    if |s| < 5 then [] else seq(|s| - 4, i requires 0 <= i < |s| - 4 => Tuple5(s[i], s[i + 1], s[i + 2], s[i + 3], s[i + 4]))
  }

  /** They are the sliding windows of width 5: one tuple per window, holding that window's elements in order. */
  lemma WindowTuples5AreWindows<T>(s: seq<T>)
    ensures var r := WindowTuples5(s); |r| == |Windows(s, 5)|
    ensures var r := WindowTuples5(s);
      forall i :: 0 <= i < |r| ==> |Windows(s, 5)[i]| == 5 && r[i] == Tuple5(Windows(s, 5)[i][0], Windows(s, 5)[i][1], Windows(s, 5)[i][2], Windows(s, 5)[i][3], Windows(s, 5)[i][4])
  {
    WindowsShape(s, 5);
  }

  /** Zipping a list with its suffixes from 1 to 4, all cut at `size`, gives its windows. */
  lemma ZipShifts5<T>(list: seq<T>, size: nat)
    requires 5 <= size <= |list|
    ensures Zip5(list, list[1..size], list[2..size], list[3..size], list[4..size]) == WindowTuples5(list[..size])
  {
    var z, w := Zip5(list, list[1..size], list[2..size], list[3..size], list[4..size]), WindowTuples5(list[..size]);
    assert |z| == size - 4 == |w|;
    forall i | 0 <= i < |z| ensures z[i] == w[i] {
    }
  }

  /**
   * `window5Stream(list)`: an empty stream below 5 elements, otherwise `stream` over the list
   * and its sublists from 1 to 4; the windows of width 5.
   */
  method Window5Stream<T>(list: seq<T>) returns (r: ZipStream5<T, T, T, T, T>)
    ensures r.NoTuples? <==> |list| < 5
    ensures r.ViaIterators? == false
    ensures r.ViaCursors? ==> fresh(r.zip)
    ensures Yields5(r, WindowTuples5(list[..JavaSize(list)]))
  {
    var size := JavaSize(list);
    if size < 5 {
      return ZipStream5.NoTuples;
    }
    r := StreamOfLists5(list, list[1..size], list[2..size], list[3..size], list[4..size]);
    ZipShifts5(list, size);
  }

  /** The input that shows the discrepancy: four elements, one window, and the as-written guard rejects them. */
  lemma Window4Counterexample()
    ensures |[0, 1, 2, 3]| < 5
    ensures WindowTuples4([0, 1, 2, 3]) == [Tuple4(0, 1, 2, 3)]
  {
  }

  // ---------------------------------------------------------------- windows over streams

  /**
   * `window2Stream(stream)` .. `window5Stream(stream)`: a window cursor of width `width` over
   * the stream's spliterator, replaced by the empty spliterator (SIZED and SUBSIZED) when it
   * estimates fewer than `width` elements. Either way the cursor delivers the windows of the stream.
   */
  method WindowStreamOf<T>(width: nat, src: Source<T>) returns (c: WindowCursor<T>)
    requires 2 <= width <= 5
    ensures fresh(c) && c.Valid() && c.width == width && c.window == null
    ensures c.Output() == Windows(Elements(src), width)
    ensures Elements(c.original) == if |Elements(src)| < width then [] else Elements(src)
    ensures Flags(c.original) == if |Elements(src)| < width then SIZED | SUBSIZED else Flags(src)
  {
    var spliterator := src;
    EstimateIsCappedSize(src);
    if Estimate(src) < width {
      spliterator := Leaf([], SIZED | SUBSIZED);
    }
    c := new WindowCursor(width, spliterator);
  }
}
