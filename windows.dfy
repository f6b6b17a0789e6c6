/**
 * The sliding windows of a sequence: the specification every window cursor and every
 * `windowNStream` front end is checked against.
 */
module Sliding {
  import opened Wrappers

  /** The windows of width `n` over `s`, oldest first: `s[0..n]`, `s[1..n+1]`, ... */
  function Windows<T>(s: seq<T>, n: nat): (r: seq<seq<T>>)
    requires n >= 1
    decreases |s|
  {
    if |s| < n then [] else [s[..n]] + Windows(s[1..], n)
  }

  /** A sequence of `L` elements has `max(0, L - n + 1)` windows, and window `i` is `s[i..i+n]`. */
  lemma {:induction false} WindowsShape<T>(s: seq<T>, n: nat)
    requires n >= 1
    ensures |Windows(s, n)| == if |s| < n then 0 else |s| - n + 1
    ensures forall i :: 0 <= i < |Windows(s, n)| ==> Windows(s, n)[i] == s[i..i + n]
    decreases |s|
  {
    if |s| >= n {
      WindowsShape(s[1..], n);
      forall i | 0 < i < |Windows(s, n)|
        ensures Windows(s, n)[i] == s[i..i + n]
      {
        assert Windows(s, n)[i] == Windows(s[1..], n)[i - 1];
        assert s[1..][i - 1..i - 1 + n] == s[i..i + n];
      }
    }
  }

  /** The last `n - 1` elements of `pushed` (all of them if there are fewer): what a primed window holds. */
  function Primed<T>(pushed: seq<T>, n: nat): (r: seq<T>)
    requires n >= 1
    ensures |r| == Min(n - 1, |pushed|)
    ensures r == pushed[|pushed| - |r|..]
  {
    pushed[|pushed| - Min(n - 1, |pushed|)..]
  }

  /**
   * With `n - 1` elements primed, the next element completes the first window, and the
   * remaining windows are those of the shifted primed part followed by the rest.
   */
  lemma WindowsStep<T>(p: seq<T>, e: seq<T>, n: nat)
    requires n >= 1 && |p| == n - 1 && e != []
    ensures Windows(p + e, n) == [p + [e[0]]] + Windows((p + [e[0]])[1..] + e[1..], n)
  {
    assert (p + e)[..n] == p + [e[0]];
    assert (p + e)[1..] == (p + [e[0]])[1..] + e[1..];
  }

  /**
   * The split theorem. The windows starting in `a` end at most `n - 1` elements into `s`,
   * so they are exactly the windows of `a` followed by the first `n - 1` elements of `s`;
   * the windows starting in `s` are the windows of `s`.
   */
  lemma {:induction false} WindowsSplit<T>(a: seq<T>, s: seq<T>, n: nat)
    requires n >= 1
    ensures Windows(a + s[..Min(n - 1, |s|)], n) + Windows(s, n) == Windows(a + s, n)
    decreases |a|
  {
    var k := Min(n - 1, |s|);
    if a == [] {
      assert a + s[..k] == s[..k];
      assert a + s == s;
    } else if |a + s| < n {
    } else {
      WindowsSplit(a[1..], s, n);
      assert (a + s[..k])[..n] == (a + s)[..n];
      assert (a + s[..k])[1..] == a[1..] + s[..k];
      assert (a + s)[1..] == a[1..] + s;
    }
  }

  /** Primed with `n - 1` elements, or with fewer and nothing left: one window per element left. */
  lemma WindowsAfterPriming<T>(p: seq<T>, e: seq<T>, n: nat)
    requires n >= 1 && |p| <= n - 1 && (|p| < n - 1 ==> e == [])
    ensures |Windows(p + e, n)| == |e|
  {
    WindowsShape(p + e, n);
  }

  /**
   * The split theorem as a window cursor uses it: the primed elements `p` and the head
   * `h`, followed by the first `n - 1` elements of the rest `s`, then the windows of `s`.
   */
  lemma WindowsSplitAfterHead<T>(p: seq<T>, h: seq<T>, s: seq<T>, tail: seq<T>, n: nat)
    requires n >= 1 && tail == s[..Min(n - 1, |s|)]
    ensures Windows(p + (h + tail), n) + Windows(tail + s[|tail|..], n) == Windows(p + (h + s), n)
  {
    var a := p + h;
    assert tail + s[|tail|..] == s by {
      assert |tail| <= |s|;
    }
    assert p + (h + tail) == a + tail;
    assert p + (h + s) == a + s;
    WindowsSplit(a, s, n);
  }
}
