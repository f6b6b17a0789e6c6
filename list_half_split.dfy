/**
 * `ListHalfSplitSpliterator`: a cursor over a random-access list that hands off a
 * contiguous part of its unconsumed region when split.
 */
module HalfSplit {
  import opened Wrappers
  import opened Characteristics
  import opened Tuples

  /** What `List.size()` reports: the length, saturated at `Integer.MAX_VALUE`. */
  function JavaSize<T>(list: seq<T>): int { Min(|list|, INT_MAX) }

  /** The end of the part `trySplit` hands off: `(list.size() - count/2)/2`. */
  function SplitPoint(size: int, count: int): int { (size - count / 2) / 2 }

  /** `trySplit` returns null: fewer than two elements remain. */
  predicate Declines(size: int, count: int) { size - count < 2 }

  /** `trySplit` throws: the split point falls before `count`, and `subList(count, to)` rejects the range. */
  predicate Throws(size: int, count: int) { !Declines(size, count) && SplitPoint(size, count) < count }

  /** When `trySplit` goes ahead, the split point lies inside the list, at or after `count`. */
  lemma SplitPointInRange(size: int, count: int)
    requires 0 <= count <= size && !Declines(size, count) && !Throws(size, count)
    ensures count <= SplitPoint(size, count) < size
  {
  }

  /** From a fresh cursor the split is an exact halving into two non-empty parts. */
  lemma SplitFromStart(size: int)
    requires size >= 2
    ensures !Declines(size, 0) && !Throws(size, 0)
    ensures SplitPoint(size, 0) == size / 2 && 1 <= size / 2 < size
  {
  }

  /** Exactly when the split point falls before `count`, so that `subList` throws. */
  lemma ThrowsExactly(size: int, count: nat)
    requires count <= size
    ensures Throws(size, count) <==> size - count >= 2 && size < 2 * count + count / 2
  {
  }

  /** The failing case is reachable: four elements, two consumed, gives split point 1. */
  lemma ThrowsAfterPartialTraversal()
    ensures SplitPoint(4, 2) == 1 && Throws(4, 2)
  {
  }

  /** After a partial traversal a split can also hand off nothing: five elements, two consumed. */
  lemma EmptyPrefixAfterPartialTraversal()
    ensures !Declines(5, 2) && !Throws(5, 2) && SplitPoint(5, 2) == 2
  {
  }

  /** The state of a cursor: the list it owns and how many of its elements it has delivered. */
  datatype Cursor<T> = Cursor(list: seq<T>, count: nat)

  ghost predicate CursorValid<T>(c: Cursor<T>) { c.count <= |c.list| < INT_MAX }

  /** The elements not yet delivered. */
  function Remaining<T>(c: Cursor<T>): seq<T>
    requires c.count <= |c.list|
  {
    c.list[c.count..]
  }

  /** One `tryAdvance`: the next element, if any, and the cursor after it. */
  function Advance<T>(c: Cursor<T>): (r: (Option<T>, Cursor<T>))
    requires CursorValid(c)
    ensures CursorValid(r.1) && r.1.list == c.list
    ensures r.0.Some? <==> Remaining(c) != []
    ensures r.0.Some? ==> [r.0.value] + Remaining(r.1) == Remaining(c) && r.1.count == c.count + 1
    ensures r.0.None? ==> r.1 == c
    ensures Remaining(r.1) == Step(Remaining(c))
  {
    if c.count < |c.list| then (Some(c.list[c.count]), Cursor(c.list, c.count + 1)) else (None, c)
  }

  /** What `trySplit` does to a cursor. */
  datatype CursorSplit<T> =
    | NoSplit                                     // returns null
    | SplitFails(failure: Failure)                // `subList(count, to)` throws
    | Halves(prefix: Cursor<T>, rest: Cursor<T>)  // hands off `prefix`, keeps `rest`

  function SplitCursor<T>(c: Cursor<T>): (r: CursorSplit<T>)
    requires CursorValid(c)
    ensures r.NoSplit? <==> Declines(|c.list|, c.count)
    ensures r.SplitFails? <==> Throws(|c.list|, c.count)
    ensures r.SplitFails? ==> r.failure == IllegalArgument
    ensures r.Halves? ==>
      && CursorValid(r.prefix) && CursorValid(r.rest) && r.prefix.count == 0 && r.rest.count == 0
      && Remaining(r.prefix) + Remaining(r.rest) == Remaining(c)
      && |Remaining(r.prefix)| == SplitPoint(|c.list|, c.count) - c.count
  {
    if |c.list| - c.count < 2 then NoSplit
    else
      var to := SplitPoint(|c.list|, c.count);
      if to < c.count then SplitFails(IllegalArgument)
      else
        SplitPointInRange(|c.list|, c.count);
        assert c.list[c.count..to] + c.list[to..] == c.list[c.count..];
        Halves(Cursor(c.list[c.count..to], 0), Cursor(c.list[to..], 0))
  }

  /**
   * The split the class documentation promises: the unconsumed region `[count, size)` cut
   * at its middle, `(size + count) / 2`. From a fresh cursor it is the split point above.
   */
  function HalvingSplitPoint(size: int, count: int): int { (size + count) / 2 }

  /** `trySplit` with the halving split point: it never throws. */
  function SplitCursorHalving<T>(c: Cursor<T>): (r: CursorSplit<T>)
    requires CursorValid(c)
    ensures !r.SplitFails?
    ensures r.NoSplit? <==> Declines(|c.list|, c.count)
    ensures r.Halves? ==>
      && CursorValid(r.prefix) && CursorValid(r.rest) && r.prefix.count == 0 && r.rest.count == 0
      && Remaining(r.prefix) + Remaining(r.rest) == Remaining(c)
      && |Remaining(r.prefix)| == |Remaining(c)| / 2
      && 1 <= |Remaining(r.prefix)| <= |Remaining(r.rest)| <= |Remaining(r.prefix)| + 1
  {
    if |c.list| - c.count < 2 then NoSplit
    else
      var to := HalvingSplitPoint(|c.list|, c.count);
      assert c.list[c.count..to] + c.list[to..] == c.list[c.count..];
      Halves(Cursor(c.list[c.count..to], 0), Cursor(c.list[to..], 0))
  }

  /** On a fresh cursor the halving split and the split as written coincide. */
  lemma HalvingAgreesFromStart<T>(list: seq<T>)
    requires |list| < INT_MAX
    ensures SplitCursorHalving(Cursor(list, 0)) == SplitCursor(Cursor(list, 0))
  {
    if |list| >= 2 {
      SplitFreshCursor(list);
    }
  }

  /**
   * A window of five primes itself by pulling four elements; splitting a nine-element list
   * after that puts the split point at 3, before `count`, and `subList(4, 3)` throws.
   * The halving split cuts the five remaining elements into two and three instead.
   */
  lemma SplitAfterWindowPriming<T>(list: seq<T>)
    requires |list| == 9
    ensures SplitPoint(9, 4) == 3 && SplitCursor(Cursor(list, 4)) == SplitFails(IllegalArgument)
    ensures SplitCursorHalving(Cursor(list, 4)) == Halves(Cursor(list[4..6], 0), Cursor(list[6..], 0))
  {
  }

  /** From a fresh cursor over at least two elements, `trySplit` halves the list exactly. */
  lemma SplitFreshCursor<T>(list: seq<T>)
    requires 2 <= |list| < INT_MAX
    ensures SplitCursor(Cursor(list, 0)) == Halves(Cursor(list[..|list| / 2], 0), Cursor(list[|list| / 2..], 0))
    ensures 1 <= |list| / 2 < |list|
  {
    SplitFromStart(|list|);
  }

  /**
   * Splitting recursively until no piece splits any more, then draining the pieces in order.
   * From a fresh cursor every split is an exact halving, so the pieces always shrink.
   */
  function SplitAll<T>(c: Cursor<T>): seq<T>
    requires CursorValid(c) && c.count == 0
    decreases |c.list|
  {
    match SplitCursor(c)
    case Halves(prefix, rest) =>
      SplitFreshCursor(c.list);
      SplitAll(prefix) + SplitAll(rest)
    case _ => Remaining(c)
  }

  /** Split-then-traverse delivers every element exactly once, in the original order. */
  lemma {:induction false} SplitAllDeliversEverything<T>(c: Cursor<T>)
    requires CursorValid(c) && c.count == 0
    ensures SplitAll(c) == c.list
    decreases |c.list|
  {
    match SplitCursor(c)
    case Halves(prefix, rest) =>
      SplitFreshCursor(c.list);
      SplitAllDeliversEverything(prefix);
      SplitAllDeliversEverything(rest);
    case _ =>
  }

  class ListHalfSplit<T> {
    var count: int
    var list: seq<T>
    /** Position of the lazily created list iterator; `None` until first use. */
    var iteratorAt: Option<nat>

    ghost predicate Valid()
      reads this
    {
      && 0 <= count <= |list| < INT_MAX
      && (iteratorAt.Some? ==> iteratorAt.value == count)
      && (iteratorAt.None? ==> count == 0)
    }

    /** The list and the count, as a value. */
    ghost function State(): (c: Cursor<T>)
      reads this
      requires Valid()
      ensures CursorValid(c)
    {
      Cursor(list, count)
    }

    constructor (list: seq<T>)
      requires JavaSize(list) != INT_MAX
      ensures Valid() && State() == Cursor(list, 0) && iteratorAt == None
    {
      this.list := list;
      count := 0;
      iteratorAt := None;
    }

    /** The public constructor, which rejects a list reporting `Integer.MAX_VALUE` elements. */
    static method Create(list: seq<T>) returns (r: Result<ListHalfSplit<T>>)
      ensures r.Err? <==> JavaSize(list) == INT_MAX
      ensures r.Err? ==> r.failure == IllegalArgument
      ensures r.Ok? ==> fresh(r.value) && r.value.Valid() && r.value.State() == Cursor(list, 0)
    {
      if JavaSize(list) == INT_MAX {
        return Err(IllegalArgument);
      }
      var c := new ListHalfSplit(list);
      return Ok(c);
    }

    /** Creates the list iterator on first use, at the start of the list. */
    method EnsureIterator()
      requires Valid()
      modifies this`iteratorAt
      ensures Valid() && iteratorAt == Some(count)
    {
      if iteratorAt == None {
        iteratorAt := Some(0);
      }
    }

    method TryAdvance() returns (r: Option<T>)
      requires Valid()
      modifies this`iteratorAt, this`count
      ensures Valid() && iteratorAt == Some(count)
      ensures (r, State()) == Advance(old(State()))
    {
      EnsureIterator();
      if iteratorAt.value < |list| {
        r := Some(list[iteratorAt.value]);
        iteratorAt := Some(iteratorAt.value + 1);
        count := count + 1;
      } else {
        r := None;
      }
    }

    method TrySplit() returns (r: SplitOutcome<ListHalfSplit<T>>)
      requires Valid()
      modifies this
      ensures Valid() && iteratorAt == Some(count)
      ensures match SplitCursor(old(State()))
        case NoSplit => r.Declined? && State() == old(State())
        case SplitFails(failure) => r == Thrown(failure) && State() == old(State())
        case Halves(prefix, rest) =>
          && r.Split? && fresh(r.prefix) && r.prefix.Valid()
          && r.prefix.State() == prefix && r.prefix.iteratorAt == None && State() == rest
    {
      EnsureIterator();
      if |list| - count < 2 {
        return Declined;
      }
      var to := SplitPoint(|list|, count);
      if to < count {
        return Thrown(IllegalArgument);
      }
      var result := new ListHalfSplit(list[count..to]);
      count := 0;
      list := list[to..];
      iteratorAt := Some(0);
      return Split(result);
    }

    /** Delivers every remaining element in order, leaving the cursor exhausted. */
    method ForEachRemaining() returns (delivered: seq<T>)
      requires Valid()
      modifies this`iteratorAt, this`count
      ensures Valid() && list == old(list) && count == |list|
      ensures delivered == Remaining(old(State()))
    {
      EnsureIterator();
      var limit := |list|;
      delivered := [];
      while count < limit
        invariant Valid() && list == old(list) && iteratorAt == Some(count)
        invariant old(count) <= count <= limit
        invariant delivered == list[old(count)..count]
      {
        delivered := delivered + [list[iteratorAt.value]];
        iteratorAt := Some(iteratorAt.value + 1);
        count := count + 1;
      }
    }

    method EstimateSize() returns (r: int)
      requires Valid()
      modifies this`iteratorAt
      ensures Valid() && State() == old(State())
      ensures r == |Remaining(State())|
    {
      EnsureIterator();
      r := |list| - count;
    }

    /** ORDERED and SUBSIZED, but not SIZED. */
    method Characteristics() returns (c: bv32)
      requires Valid()
      modifies this`iteratorAt
      ensures Valid() && State() == old(State())
      ensures Has(c, ORDERED) && Has(c, SUBSIZED) && !Has(c, SIZED) && c == ORDERED | SUBSIZED
    {
      EnsureIterator();
      c := ORDERED | SUBSIZED;
    }
  }
}
