/**
 * The immutable tuple records (Tuple2 .. Tuple5) and the positional zip and unzip of
 * sequences that every zip cursor and every `toList` collector is measured against.
 */
module Tuples {
  import opened Wrappers

  datatype Tuple2<+T1, +T2> = Tuple2(v1: T1, v2: T2)
  datatype Tuple3<+T1, +T2, +T3> = Tuple3(v1: T1, v2: T2, v3: T3)
  datatype Tuple4<+T1, +T2, +T3, +T4> = Tuple4(v1: T1, v2: T2, v3: T3, v4: T4)
  datatype Tuple5<+T1, +T2, +T3, +T4, +T5> = Tuple5(v1: T1, v2: T2, v3: T3, v4: T4, v5: T5)

  // ---------------------------------------------------------------- positional zip

  /** Pairs up the elements at equal positions, stopping at the shorter input. */
  function Zip2<T1, T2>(a: seq<T1>, b: seq<T2>): (r: seq<Tuple2<T1, T2>>)
    ensures |r| == Min(|a|, |b|)
    ensures forall i :: 0 <= i < |r| ==> r[i] == Tuple2(a[i], b[i])
  {
    if a == [] || b == [] then [] else [Tuple2(a[0], b[0])] + Zip2(a[1..], b[1..])
  }

  function Zip3<T1, T2, T3>(a: seq<T1>, b: seq<T2>, c: seq<T3>): (r: seq<Tuple3<T1, T2, T3>>)
    ensures |r| == Min(Min(|a|, |b|), |c|)
    ensures forall i :: 0 <= i < |r| ==> r[i] == Tuple3(a[i], b[i], c[i])
  {
    if a == [] || b == [] || c == [] then []
    else [Tuple3(a[0], b[0], c[0])] + Zip3(a[1..], b[1..], c[1..])
  }

  function Zip4<T1, T2, T3, T4>(a: seq<T1>, b: seq<T2>, c: seq<T3>, d: seq<T4>): (r: seq<Tuple4<T1, T2, T3, T4>>)
    ensures |r| == Min(Min(Min(|a|, |b|), |c|), |d|)
    ensures forall i :: 0 <= i < |r| ==> r[i] == Tuple4(a[i], b[i], c[i], d[i])
  {
    if a == [] || b == [] || c == [] || d == [] then []
    else [Tuple4(a[0], b[0], c[0], d[0])] + Zip4(a[1..], b[1..], c[1..], d[1..])
  }

  function Zip5<T1, T2, T3, T4, T5>(a: seq<T1>, b: seq<T2>, c: seq<T3>, d: seq<T4>, e: seq<T5>)
    : (r: seq<Tuple5<T1, T2, T3, T4, T5>>)
    ensures |r| == Min(Min(Min(Min(|a|, |b|), |c|), |d|), |e|)
    ensures forall i :: 0 <= i < |r| ==> r[i] == Tuple5(a[i], b[i], c[i], d[i], e[i])
  {
    if a == [] || b == [] || c == [] || d == [] || e == [] then []
    else [Tuple5(a[0], b[0], c[0], d[0], e[0])] + Zip5(a[1..], b[1..], c[1..], d[1..], e[1..])
  }

  // ---------------------------------------------------------------- unzip (the toList collectors)

  /** Splits a sequence of pairs into the sequence of first and of second components. */
  function Unzip2<T1, T2>(ts: seq<Tuple2<T1, T2>>): (r: Tuple2<seq<T1>, seq<T2>>)
    ensures |r.v1| == |r.v2| == |ts|
    ensures forall i :: 0 <= i < |ts| ==> r.v1[i] == ts[i].v1 && r.v2[i] == ts[i].v2
  {
    if ts == [] then Tuple2([], [])
    else var rest := Unzip2(ts[1..]); Tuple2([ts[0].v1] + rest.v1, [ts[0].v2] + rest.v2)
  }

  function Unzip3<T1, T2, T3>(ts: seq<Tuple3<T1, T2, T3>>): (r: Tuple3<seq<T1>, seq<T2>, seq<T3>>)
    ensures |r.v1| == |r.v2| == |r.v3| == |ts|
    ensures forall i :: 0 <= i < |ts| ==>
      r.v1[i] == ts[i].v1 && r.v2[i] == ts[i].v2 && r.v3[i] == ts[i].v3
  {
    if ts == [] then Tuple3([], [], [])
    else
      var rest := Unzip3(ts[1..]);
      Tuple3([ts[0].v1] + rest.v1, [ts[0].v2] + rest.v2, [ts[0].v3] + rest.v3)
  }

  function Unzip4<T1, T2, T3, T4>(ts: seq<Tuple4<T1, T2, T3, T4>>)
    : (r: Tuple4<seq<T1>, seq<T2>, seq<T3>, seq<T4>>)
    ensures |r.v1| == |r.v2| == |r.v3| == |r.v4| == |ts|
    ensures forall i :: 0 <= i < |ts| ==>
      r.v1[i] == ts[i].v1 && r.v2[i] == ts[i].v2 && r.v3[i] == ts[i].v3 && r.v4[i] == ts[i].v4
  {
    if ts == [] then Tuple4([], [], [], [])
    else
      var rest := Unzip4(ts[1..]);
      Tuple4([ts[0].v1] + rest.v1, [ts[0].v2] + rest.v2, [ts[0].v3] + rest.v3, [ts[0].v4] + rest.v4)
  }

  function Unzip5<T1, T2, T3, T4, T5>(ts: seq<Tuple5<T1, T2, T3, T4, T5>>)
    : (r: Tuple5<seq<T1>, seq<T2>, seq<T3>, seq<T4>, seq<T5>>)
    ensures |r.v1| == |r.v2| == |r.v3| == |r.v4| == |r.v5| == |ts|
    ensures forall i :: 0 <= i < |ts| ==>
      r.v1[i] == ts[i].v1 && r.v2[i] == ts[i].v2 && r.v3[i] == ts[i].v3 && r.v4[i] == ts[i].v4
      && r.v5[i] == ts[i].v5
  {
    if ts == [] then Tuple5([], [], [], [], [])
    else
      var rest := Unzip5(ts[1..]);
      Tuple5([ts[0].v1] + rest.v1, [ts[0].v2] + rest.v2, [ts[0].v3] + rest.v3, [ts[0].v4] + rest.v4,
             [ts[0].v5] + rest.v5)
  }

  // ---------------------------------------------------------------- round trips

  /** Zipping the unzipped components gives back the tuples. */
  lemma ZipUnzip2<T1, T2>(ts: seq<Tuple2<T1, T2>>)
    ensures Zip2(Unzip2(ts).v1, Unzip2(ts).v2) == ts
  {
  }

  /** Unzipping two equally long zipped sequences gives back the sequences. */
  lemma UnzipZip2<T1, T2>(a: seq<T1>, b: seq<T2>)
    requires |a| == |b|
    ensures Unzip2(Zip2(a, b)) == Tuple2(a, b)
  {
    var u := Unzip2(Zip2(a, b));
    assert u.v1 == a && u.v2 == b;
  }

  lemma ZipUnzip3<T1, T2, T3>(ts: seq<Tuple3<T1, T2, T3>>)
    ensures var u := Unzip3(ts); Zip3(u.v1, u.v2, u.v3) == ts
  {
  }

  lemma UnzipZip3<T1, T2, T3>(a: seq<T1>, b: seq<T2>, c: seq<T3>)
    requires |a| == |b| == |c|
    ensures Unzip3(Zip3(a, b, c)) == Tuple3(a, b, c)
  {
    var u := Unzip3(Zip3(a, b, c));
    assert u.v1 == a && u.v2 == b && u.v3 == c;
  }

  lemma ZipUnzip4<T1, T2, T3, T4>(ts: seq<Tuple4<T1, T2, T3, T4>>)
    ensures var u := Unzip4(ts); Zip4(u.v1, u.v2, u.v3, u.v4) == ts
  {
  }

  lemma UnzipZip4<T1, T2, T3, T4>(a: seq<T1>, b: seq<T2>, c: seq<T3>, d: seq<T4>)
    requires |a| == |b| == |c| == |d|
    ensures Unzip4(Zip4(a, b, c, d)) == Tuple4(a, b, c, d)
  {
    var u := Unzip4(Zip4(a, b, c, d));
    assert u.v1 == a && u.v2 == b && u.v3 == c && u.v4 == d;
  }

  lemma ZipUnzip5<T1, T2, T3, T4, T5>(ts: seq<Tuple5<T1, T2, T3, T4, T5>>)
    ensures var u := Unzip5(ts); Zip5(u.v1, u.v2, u.v3, u.v4, u.v5) == ts
  {
  }

  lemma UnzipZip5<T1, T2, T3, T4, T5>(a: seq<T1>, b: seq<T2>, c: seq<T3>, d: seq<T4>, e: seq<T5>)
    requires |a| == |b| == |c| == |d| == |e|
    ensures Unzip5(Zip5(a, b, c, d, e)) == Tuple5(a, b, c, d, e)
  {
    var u := Unzip5(Zip5(a, b, c, d, e));
    assert u.v1 == a && u.v2 == b && u.v3 == c && u.v4 == d && u.v5 == e;
  }

  /** Zipping two aligned concatenations is concatenating the zips of the parts. */
  lemma Zip2Append<T1, T2>(a1: seq<T1>, a2: seq<T1>, b1: seq<T2>, b2: seq<T2>)
    requires |a1| == |b1|
    ensures Zip2(a1 + a2, b1 + b2) == Zip2(a1, b1) + Zip2(a2, b2)
  {
    var whole, parts := Zip2(a1 + a2, b1 + b2), Zip2(a1, b1) + Zip2(a2, b2);
    assert |whole| == |parts|;
    forall i | 0 <= i < |whole| ensures whole[i] == parts[i] {
      if i >= |a1| { assert parts[i] == Zip2(a2, b2)[i - |a1|]; }
    }
  }

  lemma Zip3Append<T1, T2, T3>(a1: seq<T1>, a2: seq<T1>, b1: seq<T2>, b2: seq<T2>, c1: seq<T3>, c2: seq<T3>)
    requires |a1| == |b1| == |c1|
    ensures Zip3(a1 + a2, b1 + b2, c1 + c2) == Zip3(a1, b1, c1) + Zip3(a2, b2, c2)
  {
    var whole, parts := Zip3(a1 + a2, b1 + b2, c1 + c2), Zip3(a1, b1, c1) + Zip3(a2, b2, c2);
    assert |Zip3(a1, b1, c1)| == |a1|;
    assert |whole| == |a1| + Min(Min(|a2|, |b2|), |c2|) == |parts|;
    forall i | 0 <= i < |whole| ensures whole[i] == parts[i] {
      if i >= |a1| {
        assert parts[i] == Zip3(a2, b2, c2)[i - |a1|];
      } else {
        assert parts[i] == Zip3(a1, b1, c1)[i];
      }
    }
  }

  lemma Zip4Append<T1, T2, T3, T4>(a1: seq<T1>, a2: seq<T1>, b1: seq<T2>, b2: seq<T2>,
                                   c1: seq<T3>, c2: seq<T3>, d1: seq<T4>, d2: seq<T4>)
    requires |a1| == |b1| == |c1| == |d1|
    ensures Zip4(a1 + a2, b1 + b2, c1 + c2, d1 + d2) == Zip4(a1, b1, c1, d1) + Zip4(a2, b2, c2, d2)
  {
    var whole, parts := Zip4(a1 + a2, b1 + b2, c1 + c2, d1 + d2), Zip4(a1, b1, c1, d1) + Zip4(a2, b2, c2, d2);
    assert |whole| == |parts|;
    forall i | 0 <= i < |whole| ensures whole[i] == parts[i] {
      if i >= |a1| { assert parts[i] == Zip4(a2, b2, c2, d2)[i - |a1|]; }
    }
  }

  lemma Zip5Append<T1, T2, T3, T4, T5>(a1: seq<T1>, a2: seq<T1>, b1: seq<T2>, b2: seq<T2>,
                                       c1: seq<T3>, c2: seq<T3>, d1: seq<T4>, d2: seq<T4>,
                                       e1: seq<T5>, e2: seq<T5>)
    requires |a1| == |b1| == |c1| == |d1| == |e1|
    ensures Zip5(a1 + a2, b1 + b2, c1 + c2, d1 + d2, e1 + e2)
         == Zip5(a1, b1, c1, d1, e1) + Zip5(a2, b2, c2, d2, e2)
  {
    var whole := Zip5(a1 + a2, b1 + b2, c1 + c2, d1 + d2, e1 + e2);
    var parts := Zip5(a1, b1, c1, d1, e1) + Zip5(a2, b2, c2, d2, e2);
    assert |whole| == |parts|;
    forall i | 0 <= i < |whole| ensures whole[i] == parts[i] {
      if i >= |a1| { assert parts[i] == Zip5(a2, b2, c2, d2, e2)[i - |a1|]; }
    }
  }

  // ---------------------------------------------------------------- one lockstep advance

  /** The sequence after one attempted advance: one element shorter, unless already empty. */
  function Step<T>(s: seq<T>): seq<T> { if s == [] then s else s[1..] }

  /** Moving the first element of `o` to the end of `d` keeps their concatenation. */
  lemma MoveFirst<X>(d: seq<X>, o: seq<X>)
    requires o != []
    ensures (d + [o[0]]) + o[1..] == d + o
  {
    assert o == [o[0]] + o[1..];
  }

  lemma Zip2Step<T1, T2>(a: seq<T1>, b: seq<T2>)
    ensures Zip2(Step(a), Step(b)) == if Zip2(a, b) == [] then [] else Zip2(a, b)[1..]
  {
  }

  lemma Zip3Step<T1, T2, T3>(a: seq<T1>, b: seq<T2>, c: seq<T3>)
    ensures Zip3(Step(a), Step(b), Step(c)) == if Zip3(a, b, c) == [] then [] else Zip3(a, b, c)[1..]
  {
  }

  lemma Zip4Step<T1, T2, T3, T4>(a: seq<T1>, b: seq<T2>, c: seq<T3>, d: seq<T4>)
    ensures Zip4(Step(a), Step(b), Step(c), Step(d))
         == if Zip4(a, b, c, d) == [] then [] else Zip4(a, b, c, d)[1..]
  {
  }

  lemma Zip5Step<T1, T2, T3, T4, T5>(a: seq<T1>, b: seq<T2>, c: seq<T3>, d: seq<T4>, e: seq<T5>)
    ensures Zip5(Step(a), Step(b), Step(c), Step(d), Step(e))
         == if Zip5(a, b, c, d, e) == [] then [] else Zip5(a, b, c, d, e)[1..]
  {
  }

  // ---------------------------------------------------------------- truncation and concatenation

  /** Dropping the head of a prefix is taking a prefix of the tail. */
  lemma TakeTail<X>(s: seq<X>, m: nat)
    requires 0 < m <= |s|
    ensures s[..m][1..] == s[1..][..m - 1]
  {
  }

  /** Cutting every input to the length of the shortest one does not change the zip. */
  lemma {:induction false} Zip2Truncate<T1, T2>(a: seq<T1>, b: seq<T2>, m: nat)
    requires m == Min(|a|, |b|)
    ensures Zip2(a[..m], b[..m]) == Zip2(a, b)
  {
    if m > 0 {
      Zip2Truncate(a[1..], b[1..], m - 1);
      TakeTail(a, m); TakeTail(b, m);
    }
  }

  lemma {:induction false} Zip3Truncate<T1, T2, T3>(a: seq<T1>, b: seq<T2>, c: seq<T3>, m: nat)
    requires m == Min(Min(|a|, |b|), |c|)
    ensures Zip3(a[..m], b[..m], c[..m]) == Zip3(a, b, c)
  {
    if m > 0 {
      Zip3Truncate(a[1..], b[1..], c[1..], m - 1);
      TakeTail(a, m); TakeTail(b, m); TakeTail(c, m);
    }
  }

  lemma {:induction false} Zip4Truncate<T1, T2, T3, T4>(a: seq<T1>, b: seq<T2>, c: seq<T3>, d: seq<T4>, m: nat)
    requires m == Min(Min(Min(|a|, |b|), |c|), |d|)
    ensures Zip4(a[..m], b[..m], c[..m], d[..m]) == Zip4(a, b, c, d)
  {
    if m > 0 {
      Zip4Truncate(a[1..], b[1..], c[1..], d[1..], m - 1);
      TakeTail(a, m); TakeTail(b, m); TakeTail(c, m); TakeTail(d, m);
    }
  }

  lemma {:induction false} Zip5Truncate<T1, T2, T3, T4, T5>(a: seq<T1>, b: seq<T2>, c: seq<T3>, d: seq<T4>, e: seq<T5>, m: nat)
    requires m == Min(Min(Min(Min(|a|, |b|), |c|), |d|), |e|)
    ensures Zip5(a[..m], b[..m], c[..m], d[..m], e[..m]) == Zip5(a, b, c, d, e)
  {
    if m > 0 {
      Zip5Truncate(a[1..], b[1..], c[1..], d[1..], e[1..], m - 1);
      TakeTail(a, m); TakeTail(b, m); TakeTail(c, m); TakeTail(d, m); TakeTail(e, m);
    }
  }

  /** Unzipping a concatenation concatenates the unzipped parts, component by component. */
  lemma Unzip2Append<T1, T2>(a: seq<Tuple2<T1, T2>>, b: seq<Tuple2<T1, T2>>)
    ensures var ua, ub := Unzip2(a), Unzip2(b); Unzip2(a + b) == Tuple2(ua.v1 + ub.v1, ua.v2 + ub.v2)
  {
    var u, ua, ub := Unzip2(a + b), Unzip2(a), Unzip2(b);
    forall i | 0 <= i < |a + b|
      ensures u.v1[i] == (ua.v1 + ub.v1)[i] && u.v2[i] == (ua.v2 + ub.v2)[i]
    {
      if i < |a| {
        assert (a + b)[i] == a[i];
      } else {
        assert (a + b)[i] == b[i - |a|];
      }
    }
    assert u.v1 == ua.v1 + ub.v1 && u.v2 == ua.v2 + ub.v2;
  }

  lemma Unzip3Append<T1, T2, T3>(a: seq<Tuple3<T1, T2, T3>>, b: seq<Tuple3<T1, T2, T3>>)
    ensures var ua, ub := Unzip3(a), Unzip3(b); Unzip3(a + b) == Tuple3(ua.v1 + ub.v1, ua.v2 + ub.v2, ua.v3 + ub.v3)
  {
    var u, ua, ub := Unzip3(a + b), Unzip3(a), Unzip3(b);
    forall i | 0 <= i < |a + b|
      ensures u.v1[i] == (ua.v1 + ub.v1)[i] && u.v2[i] == (ua.v2 + ub.v2)[i] && u.v3[i] == (ua.v3 + ub.v3)[i]
    {
      if i < |a| {
        assert (a + b)[i] == a[i];
      } else {
        assert (a + b)[i] == b[i - |a|];
      }
    }
    assert u.v1 == ua.v1 + ub.v1 && u.v2 == ua.v2 + ub.v2 && u.v3 == ua.v3 + ub.v3;
  }

  lemma Unzip4Append<T1, T2, T3, T4>(a: seq<Tuple4<T1, T2, T3, T4>>, b: seq<Tuple4<T1, T2, T3, T4>>)
    ensures var ua, ub := Unzip4(a), Unzip4(b); Unzip4(a + b) == Tuple4(ua.v1 + ub.v1, ua.v2 + ub.v2, ua.v3 + ub.v3, ua.v4 + ub.v4)
  {
    var u, ua, ub := Unzip4(a + b), Unzip4(a), Unzip4(b);
    forall i | 0 <= i < |a + b|
      ensures u.v1[i] == (ua.v1 + ub.v1)[i] && u.v2[i] == (ua.v2 + ub.v2)[i] && u.v3[i] == (ua.v3 + ub.v3)[i] && u.v4[i] == (ua.v4 + ub.v4)[i]
    {
      if i < |a| {
        assert (a + b)[i] == a[i];
      } else {
        assert (a + b)[i] == b[i - |a|];
      }
    }
    assert u.v1 == ua.v1 + ub.v1 && u.v2 == ua.v2 + ub.v2 && u.v3 == ua.v3 + ub.v3 && u.v4 == ua.v4 + ub.v4;
  }

  lemma Unzip5Append<T1, T2, T3, T4, T5>(a: seq<Tuple5<T1, T2, T3, T4, T5>>, b: seq<Tuple5<T1, T2, T3, T4, T5>>)
    ensures var ua, ub := Unzip5(a), Unzip5(b); Unzip5(a + b) == Tuple5(ua.v1 + ub.v1, ua.v2 + ub.v2, ua.v3 + ub.v3, ua.v4 + ub.v4, ua.v5 + ub.v5)
  {
    var u, ua, ub := Unzip5(a + b), Unzip5(a), Unzip5(b);
    forall i | 0 <= i < |a + b|
      ensures u.v1[i] == (ua.v1 + ub.v1)[i] && u.v2[i] == (ua.v2 + ub.v2)[i] && u.v3[i] == (ua.v3 + ub.v3)[i] && u.v4[i] == (ua.v4 + ub.v4)[i] && u.v5[i] == (ua.v5 + ub.v5)[i]
    {
      if i < |a| {
        assert (a + b)[i] == a[i];
      } else {
        assert (a + b)[i] == b[i - |a|];
      }
    }
    assert u.v1 == ua.v1 + ub.v1 && u.v2 == ua.v2 + ub.v2 && u.v3 == ua.v3 + ub.v3 && u.v4 == ua.v4 + ub.v4 && u.v5 == ua.v5 + ub.v5;
  }
}
