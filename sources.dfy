/**
 * The spliterators a window cursor reads from: an arbitrary sized source, and the
 * anonymous spliterator built by `WindowSpliterators.concat`, which joins two of them.
 * Their state is a value; each operation returns the updated source.
 */
module Sources {
  import opened Wrappers
  import opened Characteristics
  import opened Tuples

  /**
   * What a source's own `trySplit` does, which is code outside this model when it does not
   * decline: hand off the first `size` remaining elements (all of them if fewer remain) as a
   * spliterator that reports `flags`, or throw `failure` (as a zip cursor over lists can).
   */
  datatype LeafSplit =
    | Cut(size: nat, flags: bv32)
    | Refuse(failure: Failure)

  datatype Source<T> =
    | Leaf(items: seq<T>, flags: bv32)                    // a spliterator outside this model
    | Concat(first: Option<Source<T>>, second: Source<T>)  // `concat`: `sp1` (null once handed off), `sp2`

  /** The elements a source has left, in encounter order. */
  function Elements<T>(s: Source<T>): seq<T>
  {
    match s
    case Leaf(items, _) => items
    case Concat(None, b) => Elements(b)
    case Concat(Some(a), b) => Elements(a) + Elements(b)
  }

  /** `characteristics()`: a leaf's own flags; a concatenation reports those of `sp2`. */
  function Flags<T>(s: Source<T>): bv32
  {
    match s
    case Leaf(_, flags) => flags
    case Concat(_, b) => Flags(b)
  }

  /**
   * `estimateSize()`. A leaf reports its exact size, capped at `Long.MAX_VALUE`; a
   * concatenation adds the two estimates as Java `long`s and reports `Long.MAX_VALUE`
   * if the sum wrapped to a negative value.
   */
  function Estimate<T>(s: Source<T>): (e: int)
    ensures 0 <= e <= LONG_MAX
  {
    match s
    case Leaf(items, _) => Min(|items|, LONG_MAX)
    case Concat(None, b) =>
      var est := Estimate(b);
      if est < 0 then LONG_MAX else est
    case Concat(Some(a), b) =>
      var est := WrapLong(Estimate(b) + Estimate(a));
      if est < 0 then LONG_MAX else est
  }

  /** Adding two estimates and saturating on wrap-around is the capped sum. */
  lemma SaturatedSum(e1: int, e2: int)
    requires 0 <= e1 <= LONG_MAX && 0 <= e2 <= LONG_MAX
    ensures (if WrapLong(e2 + e1) < 0 then LONG_MAX else WrapLong(e2 + e1)) == Min(e1 + e2, LONG_MAX)
  {
    if e1 + e2 > LONG_MAX {
      assert WrapLong(e2 + e1) == e1 + e2 - 0x1_0000_0000_0000_0000;
    } else {
      assert WrapLong(e2 + e1) == e1 + e2;
    }
  }

  /** The estimate is exact, except that it saturates at `Long.MAX_VALUE`. */
  lemma {:induction false} EstimateIsCappedSize<T>(s: Source<T>)
    ensures Estimate(s) == Min(|Elements(s)|, LONG_MAX)
  {
    match s
    case Leaf(_, _) =>
    case Concat(None, b) =>
      EstimateIsCappedSize(b);
    case Concat(Some(a), b) =>
      EstimateIsCappedSize(a);
      EstimateIsCappedSize(b);
      SaturatedSum(Estimate(a), Estimate(b));
  }

  /**
   * `tryAdvance`. A concatenation asks `sp1` first (while it is not null) and falls
   * through to `sp2` when `sp1` has nothing left.
   */
  function Advance<T>(s: Source<T>): (r: (Option<T>, Source<T>))
    ensures r.0.Some? <==> Elements(s) != []
    ensures r.0.Some? ==> r.0.value == Elements(s)[0]
    ensures Elements(r.1) == Step(Elements(s))
    ensures r.0.None? ==> r.1 == s
    ensures Flags(r.1) == Flags(s)
  {
    match s
    case Leaf(items, flags) =>
      if items == [] then (None, s) else (Some(items[0]), Leaf(items[1..], flags))
    case Concat(None, b) =>
      var (x, b') := Advance(b);
      (x, Concat(None, b'))
    case Concat(Some(a), b) =>
      var (x, a') := Advance(a);
      if x.Some? then
        (x, Concat(Some(a'), b))
      else
        var (y, b') := Advance(b);
        (y, Concat(Some(a'), b'))
  }

  /** The source after `k` calls of `tryAdvance`, as the window cursor's priming makes them. */
  function AdvanceN<T>(s: Source<T>, k: nat): (r: Source<T>)
    ensures Flags(r) == Flags(s)
  {
    if k == 0 then s
    else
      var before := AdvanceN(s, k - 1);
      Advance(before).1
  }

  /** `k` calls of `tryAdvance` consume the first `k` elements, or all of them when there are fewer. */
  lemma {:induction false} AdvanceNElements<T>(s: Source<T>, k: nat)
    ensures Elements(AdvanceN(s, k)) == Elements(s)[Min(k, |Elements(s)|)..]
  {
    if k > 0 {
      AdvanceNElements(s, k - 1);
    }
  }

  /** `forEachRemaining`: all of `sp1` (when not null), then all of `sp2`. */
  function ForEachRemaining<T>(s: Source<T>): (r: (seq<T>, Source<T>))
    ensures r.0 == Elements(s)
    ensures Elements(r.1) == [] && Flags(r.1) == Flags(s)
  {
    match s
    case Leaf(items, flags) => (items, Leaf([], flags))
    case Concat(None, b) =>
      var (ys, b') := ForEachRemaining(b);
      (ys, Concat(None, b'))
    case Concat(Some(a), b) =>
      var (xs, a') := ForEachRemaining(a);
      var (ys, b') := ForEachRemaining(b);
      (xs + ys, Concat(Some(a'), b'))
  }

  /** `concat(s1, s2)`: throws `Error` unless both report the same characteristics. */
  function MakeConcat<T>(a: Source<T>, b: Source<T>): (r: Result<Source<T>>)
    ensures r.Err? <==> Flags(a) != Flags(b)
    ensures r.Err? ==> r.failure == CharacteristicsMismatch
    ensures r.Ok? ==> Elements(r.value) == Elements(a) + Elements(b) && Flags(r.value) == Flags(b)
  {
    if Flags(a) != Flags(b) then Err(CharacteristicsMismatch) else Ok(Concat(Some(a), b))
  }

  /**
   * `trySplit`. A leaf splits, declines or throws as `cut` says, and keeps its elements when it throws. A concatenation whose `sp1` is null splits `sp2`;
   * otherwise, with `e1`, `e2` the two estimates: if `e1/2 > e2` it splits `sp1`; else, if
   * `e1 > e2/2`, it hands off `sp1` whole; else it hands off `concat(sp1, sp2.trySplit())`,
   * which throws `NullPointerException` when `sp2` declines. In the last two cases `sp1`
   * becomes null. An exception leaves the fields as they were when it was raised.
   */
  function TrySplit<T>(s: Source<T>, cut: Option<LeafSplit>): (r: (SplitOutcome<Source<T>>, Source<T>))
    ensures r.0.Split? ==> Elements(r.0.prefix) + Elements(r.1) == Elements(s)
    ensures r.0.Declined? || r.0 == Thrown(NullPointer) ==> r.1 == s
    ensures r.0.Thrown? ==>
              || r.0.failure in {NullPointer, CharacteristicsMismatch}
              || (cut.Some? && cut.value.Refuse? && r.0.failure == cut.value.failure)
    ensures Flags(r.1) == Flags(s)
  {
    match s
    case Leaf(items, flags) =>
      (match cut
       case None => (Declined, s)
       case Some(Refuse(failure)) => (Thrown(failure), s)
       case Some(c) =>
         var k := Min(c.size, |items|);
         assert items[..k] + items[k..] == items;
         (Split(Leaf(items[..k], c.flags)), Leaf(items[k..], flags)))
    case Concat(None, b) =>
      var (h, b') := TrySplit(b, cut);
      (h, Concat(None, b'))
    case Concat(Some(a), b) =>
      var e1, e2 := Estimate(a), Estimate(b);
      if e1 / 2 > e2 then
        var (h, a') := TrySplit(a, cut);
        (h, Concat(Some(a'), b))
      else if e1 > e2 / 2 then
        (Split(a), Concat(None, b))
      else
        var (h, b') := TrySplit(b, cut);
        match h
        case Declined => (Thrown(NullPointer), Concat(Some(a), b'))
        case Thrown(_) => (h, Concat(Some(a), b'))
        case Split(p) =>
          match MakeConcat(a, p)
          case Err(failure) => (Thrown(failure), Concat(Some(a), b'))
          case Ok(joined) => (Split(joined), Concat(None, b'))
  }

  /**
   * Every split that hands something off leaves strictly fewer elements behind, provided the
   * source is not empty and a leaf's own split hands off at least one element.
   */
  lemma {:induction false} TrySplitShrinks<T>(s: Source<T>, cut: Option<LeafSplit>)
    requires Elements(s) != [] && (cut.Some? && cut.value.Cut? ==> cut.value.size >= 1)
    ensures TrySplit(s, cut).0.Split? ==> |Elements(TrySplit(s, cut).1)| < |Elements(s)|
  {
    match s
    case Leaf(_, _) =>
    case Concat(None, b) =>
      TrySplitShrinks(b, cut);
    case Concat(Some(a), b) =>
      EstimateIsCappedSize(a);
      EstimateIsCappedSize(b);
      var e1, e2 := Estimate(a), Estimate(b);
      if e1 / 2 > e2 {
        TrySplitShrinks(a, cut);
      } else if e1 > e2 / 2 {
      } else {
        TrySplitShrinks(b, cut);
      }
  }

  /**
   * An exception loses at most one contiguous run of elements: the prefix that `sp2` handed
   * off before `concat` refused it. Everything before and after that run is still there, in order.
   */
  lemma {:induction false} TrySplitThrownDropsOneRun<T>(s: Source<T>, cut: Option<LeafSplit>) returns (i: nat, j: nat)
    requires TrySplit(s, cut).0.Thrown?
    ensures i <= j <= |Elements(s)|
    ensures Elements(TrySplit(s, cut).1) == Elements(s)[..i] + Elements(s)[j..]
    decreases s, 1
  {
    match s
    case Leaf(_, _) =>
      i, j := 0, 0;
    case Concat(None, b) =>
      assert TrySplit(s, cut) == (TrySplit(b, cut).0, Concat(None, TrySplit(b, cut).1));
      i, j := TrySplitThrownDropsOneRun(b, cut);
    case Concat(Some(a), b) =>
      if Estimate(a) / 2 > Estimate(b) {
        i, j := ThrownInFirstDropsOneRun(a, b, cut);
      } else {
        i, j := ThrownInThirdDropsOneRun(a, b, cut);
      }
  }

  lemma {:induction false} ThrownInFirstDropsOneRun<T>(a: Source<T>, b: Source<T>, cut: Option<LeafSplit>) returns (i: nat, j: nat)
    requires Estimate(a) / 2 > Estimate(b)
    requires TrySplit(Concat(Some(a), b), cut).0.Thrown?
    ensures i <= j <= |Elements(Concat(Some(a), b))|
    ensures Elements(TrySplit(Concat(Some(a), b), cut).1)
            == Elements(Concat(Some(a), b))[..i] + Elements(Concat(Some(a), b))[j..]
    decreases Concat(Some(a), b), 0
  {
    assert TrySplit(Concat(Some(a), b), cut) == (TrySplit(a, cut).0, Concat(Some(TrySplit(a, cut).1), b));
    i, j := TrySplitThrownDropsOneRun(a, cut);
    DropRunLeft(Elements(a), Elements(b), i, j);
  }

  lemma {:induction false} ThrownInThirdDropsOneRun<T>(a: Source<T>, b: Source<T>, cut: Option<LeafSplit>) returns (i: nat, j: nat)
    requires !(Estimate(a) / 2 > Estimate(b))
    requires TrySplit(Concat(Some(a), b), cut).0.Thrown?
    ensures i <= j <= |Elements(Concat(Some(a), b))|
    ensures Elements(TrySplit(Concat(Some(a), b), cut).1)
            == Elements(Concat(Some(a), b))[..i] + Elements(Concat(Some(a), b))[j..]
    decreases Concat(Some(a), b), 0
  {
    var ea, eb := Elements(a), Elements(b);
    assert Elements(Concat(Some(a), b)) == ea + eb;
    ThrownInThirdBranch(a, b, cut);
    var (h, b') := TrySplit(b, cut);
    var i': nat, j': nat;
    if h.Thrown? {
      i', j' := TrySplitThrownDropsOneRun(b, cut);
    } else if h.Split? {
      i', j' := 0, |Elements(h.prefix)|;
      assert Elements(b') == eb[j'..];
    } else {
      i', j' := 0, 0;
    }
    assert Elements(b') == eb[..i'] + eb[j'..];
    i, j := DropRunRight(ea, eb, i', j');
  }

  /** When the third branch throws, the source keeps `sp1` and what `sp2` has left after its own split. */
  lemma ThrownInThirdBranch<T>(a: Source<T>, b: Source<T>, cut: Option<LeafSplit>)
    requires !(Estimate(a) / 2 > Estimate(b))
    requires TrySplit(Concat(Some(a), b), cut).0.Thrown?
    ensures Elements(TrySplit(Concat(Some(a), b), cut).1) == Elements(a) + Elements(TrySplit(b, cut).1)
  {
    assert TrySplit(Concat(Some(a), b), cut).1 == Concat(Some(a), TrySplit(b, cut).1);
  }

  lemma DropRunLeft<T>(x: seq<T>, y: seq<T>, i: nat, j: nat)
    requires i <= j <= |x|
    ensures (x[..i] + x[j..]) + y == (x + y)[..i] + (x + y)[j..]
  {
    assert (x + y)[..i] == x[..i];
    assert (x + y)[j..] == x[j..] + y;
  }

  lemma DropRunRight<T>(x: seq<T>, y: seq<T>, i': nat, j': nat) returns (i: nat, j: nat)
    requires i' <= j' <= |y|
    ensures i == |x| + i' && j == |x| + j' && j <= |x + y|
    ensures x + (y[..i'] + y[j'..]) == (x + y)[..i] + (x + y)[j..]
  {
    i, j := |x| + i', |x| + j';
    assert (x + y)[..i] == x + y[..i'];
    assert (x + y)[j..] == y[j'..];
  }
  /** The third branch of a concatenation's split fails exactly when `sp2` declines to split. */
  lemma ConcatSplitNeedsSecondSplit<T>(a: Source<T>, b: Source<T>, cut: Option<LeafSplit>)
    requires !(Estimate(a) / 2 > Estimate(b)) && !(Estimate(a) > Estimate(b) / 2)
    ensures TrySplit(b, cut).0.Declined? ==> TrySplit(Concat(Some(a), b), cut) == (Thrown(NullPointer), Concat(Some(a), b))
  {
  }

  /**
   * The characteristics `Spliterators.spliterator(iterator, size, c)` reports: SIZED and
   * SUBSIZED are added unless CONCURRENT is set.
   */
  function TailFlags(c: bv32): bv32
  {
    if c & CONCURRENT == 0 then c | SIZED | SUBSIZED else c
  }

  /** The tail spliterator reports the same characteristics exactly when `c` is CONCURRENT or already SIZED and SUBSIZED. */
  lemma TailFlagsAgree(c: bv32)
    ensures TailFlags(c) == c <==> Has(c, CONCURRENT) || (Has(c, SIZED) && Has(c, SUBSIZED))
  {
  }
}
