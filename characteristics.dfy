/**
 * Spliterator characteristics as the Java `int` bit set, and the merge rule the zip
 * front ends use to combine the characteristics of their inputs.
 */
module Characteristics {

  const DISTINCT: bv32   := 0x0000_0001
  const SORTED: bv32     := 0x0000_0004
  const ORDERED: bv32    := 0x0000_0010
  const SIZED: bv32      := 0x0000_0040
  const NONNULL: bv32    := 0x0000_0100
  const IMMUTABLE: bv32  := 0x0000_0400
  const CONCURRENT: bv32 := 0x0000_1000
  const SUBSIZED: bv32   := 0x0000_4000

  /** The bits a zip keeps; every other bit (SUBSIZED included) is dropped. */
  const KEPT: bv32 := CONCURRENT | DISTINCT | IMMUTABLE | SORTED | NONNULL | ORDERED | SIZED

  predicate Has(c: bv32, flag: bv32) { c & flag != 0 }

  /** Some input carries `flag`. */
  predicate AnyHas(cs: seq<bv32>, flag: bv32) {
    exists i :: 0 <= i < |cs| && Has(cs[i], flag)
  }

  /** Every input carries `flag`. */
  predicate AllHave(cs: seq<bv32>, flag: bv32) {
    forall i :: 0 <= i < |cs| ==> Has(cs[i], flag)
  }

  predicate IsFlag(f: bv32) { f != 0 && f & (f - 1) == 0 }

  /** `Arrays.stream(c).reduce((l, r) -> l | r)`, a left fold. */
  function OrAll(cs: seq<bv32>): bv32
    requires |cs| > 0
  {
    if |cs| == 1 then cs[0] else OrAll(cs[..|cs| - 1]) | cs[|cs| - 1]
  }

  /** `Arrays.stream(c).reduce((l, r) -> l & r)`, a left fold. */
  function AndAll(cs: seq<bv32>): bv32
    requires |cs| > 0
  {
    if |cs| == 1 then cs[0] else AndAll(cs[..|cs| - 1]) & cs[|cs| - 1]
  }

  lemma OrHas(x: bv32, y: bv32, flag: bv32)
    ensures Has(x | y, flag) <==> Has(x, flag) || Has(y, flag)
  {
    assert (x | y) & flag == (x & flag) | (y & flag);
  }

  lemma {:induction false} OrAllHas(cs: seq<bv32>, flag: bv32)
    requires |cs| > 0
    ensures Has(OrAll(cs), flag) <==> AnyHas(cs, flag)
  {
    if |cs| > 1 {
      var init, last := cs[..|cs| - 1], cs[|cs| - 1];
      OrAllHas(init, flag);
      OrHas(OrAll(init), last, flag);
      if AnyHas(cs, flag) {
        var i :| 0 <= i < |cs| && Has(cs[i], flag);
        if i < |init| {
          assert init[i] == cs[i];
        }
      }
      if AnyHas(init, flag) {
        var i :| 0 <= i < |init| && Has(init[i], flag);
        assert cs[i] == init[i];
      }
    }
  }

  lemma {:induction false} AndAllHas(cs: seq<bv32>, flag: bv32)
    requires |cs| > 0 && IsFlag(flag)
    ensures Has(AndAll(cs), flag) <==> AllHave(cs, flag)
  {
    if |cs| > 1 {
      var init := cs[..|cs| - 1];
      AndAllHas(init, flag);
      assert forall i :: 0 <= i < |init| ==> init[i] == cs[i];
      if !AllHave(cs, flag) {
        var i :| 0 <= i < |cs| && !Has(cs[i], flag);
        if i < |init| { assert !Has(init[i], flag); }
      }
    }
  }

  /** The bit `flag` if `b` holds, else no bit. */
  function Bit(b: bool, flag: bv32): bv32 { if b then flag else 0 }

  /**
   * `zipCharacteristics`: NONNULL always, DISTINCT if any input is DISTINCT, and
   * CONCURRENT, IMMUTABLE, SORTED, ORDERED and SIZED if every input has them.
   */
  function ZipCharacteristics(cs: seq<bv32>): (r: bv32)
    requires |cs| > 0
    ensures r == NONNULL
               | Bit(AnyHas(cs, DISTINCT), DISTINCT)
               | Bit(AllHave(cs, CONCURRENT), CONCURRENT)
               | Bit(AllHave(cs, IMMUTABLE), IMMUTABLE)
               | Bit(AllHave(cs, SORTED), SORTED)
               | Bit(AllHave(cs, ORDERED), ORDERED)
               | Bit(AllHave(cs, SIZED), SIZED)
  {
    var dis := OrAll(cs);
    var con := AndAll(cs);
    OrAllHas(cs, DISTINCT);
    AndAllHas(cs, CONCURRENT);
    AndAllHas(cs, IMMUTABLE);
    AndAllHas(cs, SORTED);
    AndAllHas(cs, ORDERED);
    AndAllHas(cs, SIZED);
    (CONCURRENT & con)
    | (DISTINCT & dis)
    | (IMMUTABLE & con)
    | (SORTED & con)
    | NONNULL
    | (ORDERED & con)
    | (SIZED & con)
  }

  /** Flag by flag: what the merged set holds, and that nothing outside KEPT survives. */
  lemma ZipCharacteristicsFlags(cs: seq<bv32>)
    requires |cs| > 0
    ensures var r := ZipCharacteristics(cs);
      && Has(r, NONNULL)
      && (Has(r, DISTINCT) <==> AnyHas(cs, DISTINCT))
      && (Has(r, CONCURRENT) <==> AllHave(cs, CONCURRENT))
      && (Has(r, IMMUTABLE) <==> AllHave(cs, IMMUTABLE))
      && (Has(r, SORTED) <==> AllHave(cs, SORTED))
      && (Has(r, ORDERED) <==> AllHave(cs, ORDERED))
      && (Has(r, SIZED) <==> AllHave(cs, SIZED))
      && !Has(r, SUBSIZED)
      && r & !KEPT == 0
  {
  }

  lemma SameElementsSameFlags(cs: seq<bv32>, ds: seq<bv32>, flag: bv32)
    requires multiset(cs) == multiset(ds)
    ensures AnyHas(cs, flag) <==> AnyHas(ds, flag)
    ensures AllHave(cs, flag) <==> AllHave(ds, flag)
  {
    forall i | 0 <= i < |cs| ensures exists j :: 0 <= j < |ds| && ds[j] == cs[i] {
      assert cs[i] in multiset(ds);
    }
    forall j | 0 <= j < |ds| ensures exists i :: 0 <= i < |cs| && cs[i] == ds[j] {
      assert ds[j] in multiset(cs);
    }
  }

  /** The merge does not depend on the order of its arguments. */
  lemma ZipCharacteristicsOrderFree(cs: seq<bv32>, ds: seq<bv32>)
    requires |cs| > 0 && multiset(cs) == multiset(ds)
    ensures |ds| > 0 && ZipCharacteristics(cs) == ZipCharacteristics(ds)
  {
    assert |ds| == |multiset(ds)| == |multiset(cs)| == |cs|;
    SameElementsSameFlags(cs, ds, DISTINCT);
    SameElementsSameFlags(cs, ds, CONCURRENT);
    SameElementsSameFlags(cs, ds, IMMUTABLE);
    SameElementsSameFlags(cs, ds, SORTED);
    SameElementsSameFlags(cs, ds, ORDERED);
    SameElementsSameFlags(cs, ds, SIZED);
  }

  /** The merge of two inputs, flag by flag. */
  lemma ZipPairFlags(a: bv32, b: bv32)
    ensures var r := ZipCharacteristics([a, b]);
      && Has(r, NONNULL) && r & !KEPT == 0
      && (Has(r, DISTINCT) <==> Has(a, DISTINCT) || Has(b, DISTINCT))
      && (Has(r, CONCURRENT) <==> Has(a, CONCURRENT) && Has(b, CONCURRENT))
      && (Has(r, IMMUTABLE) <==> Has(a, IMMUTABLE) && Has(b, IMMUTABLE))
      && (Has(r, SORTED) <==> Has(a, SORTED) && Has(b, SORTED))
      && (Has(r, ORDERED) <==> Has(a, ORDERED) && Has(b, ORDERED))
      && (Has(r, SIZED) <==> Has(a, SIZED) && Has(b, SIZED))
  {
    var s := [a, b];
    assert s[0] == a && s[1] == b;
    ZipCharacteristicsFlags(s);
  }

  /** The merge of three inputs, flag by flag. */
  lemma ZipTripleFlags(a: bv32, b: bv32, c: bv32)
    ensures var r := ZipCharacteristics([a, b, c]);
      && Has(r, NONNULL) && r & !KEPT == 0
      && (Has(r, DISTINCT) <==> Has(a, DISTINCT) || Has(b, DISTINCT) || Has(c, DISTINCT))
      && (Has(r, CONCURRENT) <==> Has(a, CONCURRENT) && Has(b, CONCURRENT) && Has(c, CONCURRENT))
      && (Has(r, IMMUTABLE) <==> Has(a, IMMUTABLE) && Has(b, IMMUTABLE) && Has(c, IMMUTABLE))
      && (Has(r, SORTED) <==> Has(a, SORTED) && Has(b, SORTED) && Has(c, SORTED))
      && (Has(r, ORDERED) <==> Has(a, ORDERED) && Has(b, ORDERED) && Has(c, ORDERED))
      && (Has(r, SIZED) <==> Has(a, SIZED) && Has(b, SIZED) && Has(c, SIZED))
  {
    var s := [a, b, c];
    assert s[0] == a && s[1] == b && s[2] == c;
    ZipCharacteristicsFlags(s);
  }

  /** Two merge results are equal when they agree on every kept flag. */
  lemma SameKeptFlags(x: bv32, y: bv32)
    requires x & !KEPT == 0 && y & !KEPT == 0
    requires Has(x, DISTINCT) == Has(y, DISTINCT) && Has(x, CONCURRENT) == Has(y, CONCURRENT)
    requires Has(x, IMMUTABLE) == Has(y, IMMUTABLE) && Has(x, SORTED) == Has(y, SORTED)
    requires Has(x, ORDERED) == Has(y, ORDERED) && Has(x, SIZED) == Has(y, SIZED)
    requires Has(x, NONNULL) == Has(y, NONNULL)
    ensures x == y
  {
  }

  /** Merging the merge of `a` and `b` with `c` gives the same bits as merging all three at once. */
  lemma ZipCharacteristicsRegroupLeft(a: bv32, b: bv32, c: bv32)
    ensures ZipCharacteristics([ZipCharacteristics([a, b]), c]) == ZipCharacteristics([a, b, c])
  {
    var ab := ZipCharacteristics([a, b]);
    ZipPairFlags(a, b);
    ZipPairFlags(ab, c);
    ZipTripleFlags(a, b, c);
    SameKeptFlags(ZipCharacteristics([ab, c]), ZipCharacteristics([a, b, c]));
  }

  /** Merging `a` with the merge of `b` and `c` gives the same bits as merging all three at once. */
  lemma ZipCharacteristicsRegroupRight(a: bv32, b: bv32, c: bv32)
    ensures ZipCharacteristics([a, ZipCharacteristics([b, c])]) == ZipCharacteristics([a, b, c])
  {
    var bc := ZipCharacteristics([b, c]);
    ZipPairFlags(b, c);
    ZipPairFlags(a, bc);
    ZipTripleFlags(a, b, c);
    SameKeptFlags(ZipCharacteristics([a, bc]), ZipCharacteristics([a, b, c]));
  }
}
