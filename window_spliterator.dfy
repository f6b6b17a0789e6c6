/**
 * `WindowSpliterators.Window2Spliterator` .. `Window5Spliterator`: a cursor that turns a
 * source of elements into its sliding windows of width 2 to 5, through a ring buffer
 * (`Window2` .. `Window5`). The four classes differ only in their width, so one class
 * with a `width` field models them; a window is the sequence of its `width` elements.
 */
module WindowCursors {
  import opened Wrappers
  import opened Characteristics
  import opened Tuples
  import opened Sources
  import opened Sliding

  /** `index < n - k ? index + k : index - (n - k)`: the slot `k` places after `index`, cyclically. */
  function Cyc(i: int, k: int, n: int): (j: int)
    requires 0 <= i < n && 0 <= k < n
    ensures 0 <= j < n
  {
    if i < n - k then i + k else i - (n - k)
  }

  /**
   * What a window of width `n` holds `k` places after its oldest slot, once `pushed` has
   * been written into it: `pushed[|pushed| - n + k]`, or null if fewer were written.
   */
  function Slot<T>(pushed: seq<T>, k: int, n: int): Option<T>
  {
    var q := |pushed| - n + k;
    if 0 <= q < |pushed| then Some(pushed[q]) else None
  }

  /**
   * Once `n - 1` elements have been written, writing `t` makes the window show the primed
   * elements followed by `t`, and leaves the last `n - 1` of those primed.
   */
  lemma ShownAfterNext<T>(pushed: seq<T>, t: T, n: nat)
    requires n >= 2 && |pushed| >= n - 1
    ensures forall k :: 0 <= k < n ==> Slot(pushed + [t], k, n) == Some((Primed(pushed, n) + [t])[k])
    ensures Primed(pushed + [t], n) == (Primed(pushed, n) + [t])[1..]
  {
  }

  /** `WindowN`: an `Object[N]` ring buffer and the slot `next` writes. */
  class Window<T> {
    const width: nat
    const slots: array<Option<T>>
    var index: int
    /** Every element written so far, oldest first. */
    ghost var pushed: seq<T>

    ghost predicate Valid()
      reads this, slots
    {
      && 2 <= width && slots.Length == width && 0 <= index < width
      && forall k :: 0 <= k < width ==> slots[Cyc(index, k, width)] == Slot(pushed, k, width)
    }

    /** A fresh buffer: every slot null. */
    constructor (width: nat)
      requires 2 <= width
      ensures Valid() && this.width == width && pushed == [] && fresh(slots)
    {
      this.width := width;
      slots := new Option<T>[width](_ => None);
      index := 0;
      pushed := [];
    }

    /**
     * `next(t, action)`: overwrites the oldest slot with `t`, moves `index` on by one
     * (back to 0 at `width`), and shows the slots from `index` on, cyclically: the last
     * `width` elements written, oldest first.
     */
    method Next(t: T) returns (tuple: seq<Option<T>>)
      requires Valid()
      modifies this, slots
      ensures Valid() && pushed == old(pushed) + [t]
      ensures |tuple| == width
      ensures forall k :: 0 <= k < width ==> tuple[k] == Slot(pushed, k, width)
    {
      ghost var before := slots[..];
      ghost var start := index;
      slots[index] := Some(t);
      index := index + 1;
      if index == width {
        index := 0;
      }
      pushed := pushed + [t];
      forall k | 0 <= k < width
        ensures slots[Cyc(index, k, width)] == Slot(pushed, k, width)
      {
        if k < width - 1 {
          assert Cyc(index, k, width) == Cyc(start, k + 1, width);
          assert slots[Cyc(index, k, width)] == before[Cyc(start, k + 1, width)];
        } else {
          assert Cyc(index, k, width) == start;
        }
      }
      var shown, oldest := slots[..], index;
      tuple := seq(width, k requires 0 <= k < width => shown[Cyc(oldest, k, width)]);
    }
  }

  class WindowCursor<T> {
    const width: nat
    var original: Source<T>
    /** Created on first use; null until then. */
    var window: Window?<T>

    /**
     * Once the window exists it has been primed with up to `width - 1` elements, and it
     * holds fewer only when the source has run out.
     */
    ghost predicate Valid()
      reads this, window
      reads if window != null then {window.slots} else {}
    {
      && 2 <= width <= 5
      && (window != null ==>
          && window.Valid() && window.width == width
          && (|window.pushed| < width - 1 ==> Elements(original) == []))
    }

    /** The windows still to come: those of the primed elements followed by what the source has left. */
    ghost function Output(): seq<seq<T>>
      reads this, window
      reads if window != null then {window.slots} else {}
      requires Valid()
    {
      if window == null then Windows(Elements(original), width)
      else Windows(Primed(window.pushed, width) + Elements(original), width)
    }

    /** The source as the first traversal call leaves it: primed already, or after `width - 1` pulls. */
    ghost function PrimedSource(): Source<T>
      reads this
      requires 2 <= width
    {
      if window != null then original else AdvanceN(original, width - 1)
    }

    constructor (width: nat, original: Source<T>)
      requires 2 <= width <= 5
      ensures this.width == width && this.original == original && window == null
      ensures Valid() && Output() == Windows(Elements(original), width)
    {
      this.width := width;
      this.original := original;
      window := null;
    }

    /** A cursor that carries on with an already primed window: `new WindowNSpliterator(original)` followed by `result.window = window`. */
    constructor Resume(width: nat, original: Source<T>, window: Window<T>)
      requires 2 <= width <= 5 && window.Valid() && window.width == width && |window.pushed| >= width - 1
      ensures this.width == width && this.original == original && this.window == window
      ensures Valid() && Output() == Windows(Primed(window.pushed, width) + Elements(original), width)
    {
      this.width := width;
      this.original := original;
      this.window := window;
    }

    /**
     * `initWindow`: installs a fresh window and pulls `width - 1` times from the source,
     * writing each element into the window without emitting; returns the elements pulled.
     */
    method InitWindow() returns (loaded: seq<T>)
      requires 2 <= width <= 5
      modifies this
      ensures window != null && fresh(window) && fresh(window.slots) && Valid()
      ensures window.pushed == loaded
      ensures loaded == Elements(old(original))[..Min(width - 1, |Elements(old(original))|)]
      ensures Elements(original) == Elements(old(original))[|loaded|..]
      ensures Flags(original) == Flags(old(original))
      ensures original == AdvanceN(old(original), width - 1)
    {
      window := new Window(width);
      loaded := [];
      var pulls := 0;
      while pulls < width - 1
        invariant window != null && fresh(window) && fresh(window.slots)
        invariant window.Valid() && window.width == width && window.pushed == loaded
        invariant 0 <= pulls <= width - 1
        invariant original == AdvanceN(old(original), pulls)
        invariant loaded == Elements(old(original))[..Min(pulls, |Elements(old(original))|)]
      {
        loaded := Pull(old(original), pulls, loaded);
        pulls := pulls + 1;
      }
      AdvanceNElements(old(original), width - 1);
    }

    /** One `original.tryAdvance` of `initWindow`: the element pulled, if any, goes into the window. */
    method Pull(ghost s0: Source<T>, ghost pulls: nat, loaded: seq<T>) returns (more: seq<T>)
      requires window != null && window.Valid() && window.width == width && window.pushed == loaded
      requires original == AdvanceN(s0, pulls) && loaded == Elements(s0)[..Min(pulls, |Elements(s0)|)]
      modifies this, window, window.slots
      ensures window == old(window) && window.Valid() && window.width == width && window.pushed == more
      ensures original == AdvanceN(s0, pulls + 1) && more == Elements(s0)[..Min(pulls + 1, |Elements(s0)|)]
    {
      ghost var e := Elements(s0);
      AdvanceNElements(s0, pulls);
      var (x, rest) := Advance(original);
      assert rest == AdvanceN(s0, pulls + 1);
      original := rest;
      more := loaded;
      if x.Some? {
        var ignored := window.Next(x.value);
        assert e[..pulls + 1] == loaded + [x.value];
        more := loaded + [x.value];
      }
    }

    /** `if (window == null) initWindow();`, which every traversal method starts with. */
    method Prime()
      requires Valid()
      modifies this
      ensures Valid() && window != null
      ensures old(window) != null ==> window == old(window)
      ensures window == old(window) || (fresh(window) && fresh(window.slots))
      ensures Output() == old(Output()) && Flags(original) == Flags(old(original))
      ensures original == old(PrimedSource())
    {
      if window == null {
        ghost var e := Elements(old(original));
        var loaded := InitWindow();
        assert Primed(loaded, width) == loaded;
        assert e[..|loaded|] + e[|loaded|..] == e;
      }
    }

    /** `tryAdvance`: primes the window on first use, then pulls one element and emits the window it completes. */
    method TryAdvance() returns (r: Option<seq<T>>)
      requires Valid()
      modifies this, window
      modifies if window != null then {window.slots} else {}
      ensures Valid() && window != null
      ensures old(window) != null ==> window == old(window)
      ensures window == old(window) || (fresh(window) && fresh(window.slots))
      ensures r == if old(Output()) == [] then None else Some(old(Output())[0])
      ensures Output() == Step(old(Output()))
      ensures Flags(original) == Flags(old(original))
    {
      Prime();
      ghost var pushed := window.pushed;
      ghost var p := Primed(pushed, width);
      ghost var e := Elements(original);
      var (x, rest) := Advance(original);
      original := rest;
      if x.Some? {
        WindowsStep(p, e, width);
        ShownAfterNext(pushed, x.value, width);
        var tuple := window.Next(x.value);
        r := Some(seq(width, k requires 0 <= k < width => tuple[k].value));
        assert r.value == p + [e[0]];
      } else {
        r := None;
      }
    }

    /**
     * `trySplit`. After priming, declines if the source estimates fewer than `width`
     * elements or declines itself. Otherwise the source hands off a head, and `HandOff`
     * builds the new cursor.
     */
    method TrySplit(cut: Option<LeafSplit>) returns (r: SplitOutcome<WindowCursor<T>>)
      requires Valid()
      modifies this
      ensures Valid() && window != null && Flags(original) == Flags(old(original))
      ensures old(|Output()|) < width ==> r.Declined?
      ensures var p := old(PrimedSource()); var h := Sources.TrySplit(p, cut).0;
              && (r.Declined? <==> Estimate(p) < width || h.Declined?)
              && (r.Split? <==> Estimate(p) >= width && h.Split? && Flags(h.prefix) == TailFlags(Flags(p)))
              && (r.Thrown? ==> r.failure == if h.Thrown? then h.failure else CharacteristicsMismatch)
      ensures r.Declined? ==> Output() == old(Output()) && original == old(PrimedSource())
      ensures r.Thrown? ==>
                || r.failure in {NullPointer, CharacteristicsMismatch}
                || (cut.Some? && cut.value.Refuse? && r.failure == cut.value.failure)
      ensures r.Split? ==> && fresh(r.prefix) && r.prefix.Valid() && r.prefix.width == width
                           && fresh(window) && fresh(window.slots)
                           && r.prefix.Output() + Output() == old(Output())
                           && Flags(r.prefix.original) == TailFlags(Flags(original))
    {
      Prime();
      EstimateIsCappedSize(original);
      WindowsAfterPriming(Primed(window.pushed, width), Elements(original), width);
      if Estimate(original) < width {
        return Declined;
      }
      var (head, rest) := Sources.TrySplit(original, cut);
      if head.Declined? {
        return Declined;
      }
      original := rest;
      if head.Thrown? {
        return Thrown(head.failure);
      }
      r := HandOff(head.prefix);
    }

    /**
     * The rest of `trySplit` once the source has handed off `head`: the current window goes
     * to a new cursor over `concat(head, tail)`, where `tail` is what re-priming this
     * window pulls from the source.
     */
    method HandOff(head: Source<T>) returns (r: SplitOutcome<WindowCursor<T>>)
      requires Valid() && window != null && |window.pushed| >= width - 1
      modifies this
      ensures Valid() && window != null && Flags(original) == Flags(old(original))
      ensures r.Split? || r == Thrown(CharacteristicsMismatch)
      ensures r.Split? <==> Flags(head) == TailFlags(Flags(old(original)))
      ensures r.Split? ==> && fresh(r.prefix) && r.prefix.Valid() && r.prefix.width == width
                           && fresh(window) && fresh(window.slots)
                           && r.prefix.Output() + Output()
                              == Windows(Primed(old(window.pushed), width) + (Elements(head) + Elements(old(original))), width)
                           && Flags(r.prefix.original) == TailFlags(Flags(original))
    {
      ghost var p := Primed(window.pushed, width);
      ghost var e := Elements(original);
      var headWindow := window;
      var tail := InitWindow();
      var joined := MakeConcat(head, Leaf(tail, TailFlags(Flags(original))));
      if joined.Err? {
        return Thrown(joined.failure);
      }
      var result := new WindowCursor.Resume(width, joined.value, headWindow);
      WindowsSplitAfterHead(p, Elements(head), e, tail, width);
      return Split(result);
    }

    /** `estimateSize`: primes the window on first use, then reports the source's estimate. */
    method EstimateSize() returns (n: int)
      requires Valid()
      modifies this
      ensures Valid() && window != null && Output() == old(Output())
      ensures window == old(window) || (fresh(window) && fresh(window.slots))
      ensures n == Min(|Output()|, LONG_MAX)
    {
      Prime();
      EstimateIsCappedSize(original);
      WindowsShape(Primed(window.pushed, width) + Elements(original), width);
      n := Estimate(original);
    }

    /** `characteristics`: those of the source, which no traversal changes. */
    method Characteristics() returns (c: bv32)
      ensures c == Flags(original)
    {
      c := Flags(original);
    }

    /** `Spliterator.forEachRemaining`'s default, `do { } while (tryAdvance(action))`. */
    method ForEachRemaining() returns (delivered: seq<seq<T>>)
      requires Valid()
      modifies this, window
      modifies if window != null then {window.slots} else {}
      ensures Valid() && Output() == []
      ensures delivered == old(Output())
    {
      ghost var all := Output();
      delivered := [];
      var more := true;
      while more
        invariant Valid()
        invariant window == old(window) || (window != null && fresh(window) && fresh(window.slots))
        invariant delivered + Output() == all
        invariant !more ==> Output() == []
        decreases |Output()| + (if more then 1 else 0)
      {
        ghost var before := Output();
        var r := TryAdvance();
        if r.Some? {
          MoveFirst(delivered, before);
          delivered := delivered + [r.value];
        } else {
          more := false;
        }
      }
    }
  }
}
