# MoreLambda traversal engine in Dafny

A model of the parallel-splittable traversal engine of MoreLambda
(`com.lethe_river.morelambda.algebra`): the spliterators that zip lists and streams into
tuples, turn one stream into its sliding windows, and split both for fork-join traversal,
together with the `Tuple` front ends built on them.

- `ListHalfSplitSpliterator` (module `HalfSplit`): a cursor over a random-access list.
  `trySplit` hands off a contiguous part of the unconsumed region and keeps the rest,
  restarting its count at 0. The class keeps the source's fields (`list`, `count`, and the
  lazily created iterator as its position); the split arithmetic is a pure function
  (`SplitCursor`) that the method is proved against.
- `Zip2Spliterator` .. `Zip5Spliterator` (module `ZipCursors`): list cursors advanced and
  split in lockstep. `Tuple2Ziper` .. `Tuple5Ziper` and `stream(Stream...)` (module
  `Zipers`): the unsized lockstep iterators and the size the zipped stream reports.
- `WindowSpliterators` (modules `Sources`, `Sliding`, `WindowCursors`): `Window2Spliterator`
  .. `Window5Spliterator` as one class with a `width` field and a ring buffer kept in an
  array, and the `concat` spliterator. The specification is `Windows(s, n)`, the list of
  `s[i..i+n]`; the main theorem is that the prefix a split hands off, drained, followed by
  what this cursor still delivers, is exactly the unsplit window sequence.
- `Tuple` (modules `Characteristics`, `Tuples`, `TupleStreams`, `Comparators`, `Products`,
  `IndexedStreams`, `Collectors`): `zipCharacteristics`, `stream(List...)`,
  `window2Stream` .. `window5Stream`, `comparatorOf`, `productStream`, `streamWithIndex`
  and the `toList2` .. `toList5` collectors.

Java exceptions become values: a `trySplit` returns `Declined` (null), `Split(prefix)` or
`Thrown(failure)`; other operations return `Result`. Java `int` and `long` arithmetic is
written out where it can wrap (`WrapInt`, `WrapLong`, saturation at `Long.MAX_VALUE`,
`List.size()` saturating at `Integer.MAX_VALUE`).

Four behaviours of the code are worth knowing before reading the contracts:

- The class comment of `ListHalfSplitSpliterator` (line 11) says a split halves the list
  exactly. The code puts the split point at the absolute index `(size - count/2)/2`, which is
  the middle only while `count` is 0. After a partial traversal it can fall before `count`,
  and `subList(count, to)` then throws `IllegalArgumentException` (`HalfSplit.ThrowsExactly`;
  see "Findings").
- Splits can throw rather than decline. `concat` throws `Error` when the head that the
  source's own `trySplit` returned reports characteristics other than those of the tail
  spliterator. The tail reports `TailFlags` of the source's characteristics
  (`Sources.TailFlagsAgree`), so a window split throws exactly when the head's characteristics
  differ from that (`WindowCursors.WindowCursor.HandOff`). `concat(sp1, sp2.trySplit())`
  throws `NullPointerException` when `sp2` declines.
- The zip cursors report the fixed characteristics ORDERED | NONNULL | SUBSIZED, not the
  merge of their components', and their estimate is the first component's.
- The window cursors do not check that their source is ORDERED.

## Model

| member | source | states |
|---|---|---|
| Wrappers.WrapInt | src/main/java/com/lethe_river/morelambda/algebra/Tuple.java:589-591 | Java `int` addition in `i -> i+1`: the result is a Java `int` congruent to the mathematical sum modulo 2^32 |
| Wrappers.WrapLong | src/main/java/com/lethe_river/morelambda/algebra/WindowSpliterator.java:413-419 | Java `long` addition in `est += ...`: the result is a Java `long` congruent to the sum modulo 2^64 |
| Characteristics.OrAllHas | src/main/java/com/lethe_river/morelambda/algebra/Tuple.java:929 | the `\|`-reduction of the inputs has a flag exactly when some input has it |
| Characteristics.AndAllHas | src/main/java/com/lethe_river/morelambda/algebra/Tuple.java:930 | the `&`-reduction of the inputs has a flag exactly when every input has it |
| Characteristics.ZipCharacteristics | src/main/java/com/lethe_river/morelambda/algebra/Tuple.java:928-938 | the merge is NONNULL, DISTINCT if any input is, and CONCURRENT, IMMUTABLE, SORTED, ORDERED, SIZED if all inputs are |
| Characteristics.ZipCharacteristicsFlags | src/main/java/com/lethe_river/morelambda/algebra/Tuple.java:928-938 | flag by flag, both directions of each iff; SUBSIZED and every bit outside the seven kept flags is dropped |
| Characteristics.ZipCharacteristicsOrderFree | src/main/java/com/lethe_river/morelambda/algebra/Tuple.java:928-938 | the merge does not depend on the order (or multiplicity layout) of its arguments: any permutation gives the same bits |
| Characteristics.ZipPairFlags | src/main/java/com/lethe_river/morelambda/algebra/Tuple.java:928-938 | the merge of two inputs, flag by flag, with nothing outside the kept flags |
| Characteristics.ZipTripleFlags | src/main/java/com/lethe_river/morelambda/algebra/Tuple.java:928-938 | the merge of three inputs, flag by flag, with nothing outside the kept flags |
| Characteristics.ZipCharacteristicsRegroupLeft | src/main/java/com/lethe_river/morelambda/algebra/Tuple.java:928-938 | merging `(a, b)` first and then `c` gives the same bits as merging `a, b, c` at once |
| Characteristics.ZipCharacteristicsRegroupRight | src/main/java/com/lethe_river/morelambda/algebra/Tuple.java:928-938 | merging `a` with the merge of `(b, c)` gives the same bits as merging `a, b, c` at once |
| Tuples.Zip2 | src/main/java/com/lethe_river/morelambda/algebra/Tuple.java:276-294 | the zip of 2 sequences has as many tuples as the shortest input, and tuple `i` holds element `i` of each input |
| Tuples.Zip3 | src/main/java/com/lethe_river/morelambda/algebra/Tuple.java:344-362 | the zip of 3 sequences has as many tuples as the shortest input, and tuple `i` holds element `i` of each input |
| Tuples.Zip4 | src/main/java/com/lethe_river/morelambda/algebra/Tuple.java:425-445 | the zip of 4 sequences has as many tuples as the shortest input, and tuple `i` holds element `i` of each input |
| Tuples.Zip5 | src/main/java/com/lethe_river/morelambda/algebra/Tuple.java:517-540 | the zip of 5 sequences has as many tuples as the shortest input, and tuple `i` holds element `i` of each input |
| Tuples.Unzip2 | src/main/java/com/lethe_river/morelambda/algebra/Tuple.java:822-836 | the unzip of `ts` is 2 sequences as long as `ts`, sequence `k` holding component `k` of every tuple in order |
| Tuples.Unzip3 | src/main/java/com/lethe_river/morelambda/algebra/Tuple.java:845-862 | the unzip of `ts` is 3 sequences as long as `ts`, sequence `k` holding component `k` of every tuple in order |
| Tuples.Unzip4 | src/main/java/com/lethe_river/morelambda/algebra/Tuple.java:872-892 | the unzip of `ts` is 4 sequences as long as `ts`, sequence `k` holding component `k` of every tuple in order |
| Tuples.Unzip5 | src/main/java/com/lethe_river/morelambda/algebra/Tuple.java:903-926 | the unzip of `ts` is 5 sequences as long as `ts`, sequence `k` holding component `k` of every tuple in order |
| Tuples.ZipUnzip2 | src/main/java/com/lethe_river/morelambda/algebra/Tuple.java:822-836 | zipping the unzipped components gives the tuples back (round trip) |
| Tuples.UnzipZip2 | src/main/java/com/lethe_river/morelambda/algebra/Tuple.java:822-836 | unzipping the zip of equally long sequences gives the sequences back (round trip) |
| Tuples.ZipUnzip3 | src/main/java/com/lethe_river/morelambda/algebra/Tuple.java:845-862 | zipping the unzipped components gives the tuples back (round trip) |
| Tuples.UnzipZip3 | src/main/java/com/lethe_river/morelambda/algebra/Tuple.java:845-862 | unzipping the zip of equally long sequences gives the sequences back (round trip) |
| Tuples.ZipUnzip4 | src/main/java/com/lethe_river/morelambda/algebra/Tuple.java:872-892 | zipping the unzipped components gives the tuples back (round trip) |
| Tuples.UnzipZip4 | src/main/java/com/lethe_river/morelambda/algebra/Tuple.java:872-892 | unzipping the zip of equally long sequences gives the sequences back (round trip) |
| Tuples.ZipUnzip5 | src/main/java/com/lethe_river/morelambda/algebra/Tuple.java:903-926 | zipping the unzipped components gives the tuples back (round trip) |
| Tuples.UnzipZip5 | src/main/java/com/lethe_river/morelambda/algebra/Tuple.java:903-926 | unzipping the zip of equally long sequences gives the sequences back (round trip) |
| Tuples.Zip2Append | src/main/java/com/lethe_river/morelambda/algebra/Tuple.java:276-294 | the zip of aligned concatenations is the concatenation of the zips of the parts: what a joint split relies on |
| Tuples.Zip3Append | src/main/java/com/lethe_river/morelambda/algebra/Tuple.java:344-362 | the zip of aligned concatenations is the concatenation of the zips of the parts: what a joint split relies on |
| Tuples.Zip4Append | src/main/java/com/lethe_river/morelambda/algebra/Tuple.java:425-445 | the zip of aligned concatenations is the concatenation of the zips of the parts: what a joint split relies on |
| Tuples.Zip5Append | src/main/java/com/lethe_river/morelambda/algebra/Tuple.java:517-540 | the zip of aligned concatenations is the concatenation of the zips of the parts: what a joint split relies on |
| Tuples.Zip2Step | src/main/java/com/lethe_river/morelambda/algebra/Tuple.java:276-294 | advancing every input once drops exactly the first tuple of the zip, or nothing when the zip is empty |
| Tuples.Zip3Step | src/main/java/com/lethe_river/morelambda/algebra/Tuple.java:344-362 | advancing every input once drops exactly the first tuple of the zip, or nothing when the zip is empty |
| Tuples.Zip4Step | src/main/java/com/lethe_river/morelambda/algebra/Tuple.java:425-445 | advancing every input once drops exactly the first tuple of the zip, or nothing when the zip is empty |
| Tuples.Zip5Step | src/main/java/com/lethe_river/morelambda/algebra/Tuple.java:517-540 | advancing every input once drops exactly the first tuple of the zip, or nothing when the zip is empty |
| Tuples.Zip2Truncate | src/main/java/com/lethe_river/morelambda/algebra/Tuple.java:276-294 | cutting every input to `min` of the lengths (the `subList(0, min)` calls) does not change the zip |
| Tuples.Zip3Truncate | src/main/java/com/lethe_river/morelambda/algebra/Tuple.java:344-362 | cutting every input to `min` of the lengths (the `subList(0, min)` calls) does not change the zip |
| Tuples.Zip4Truncate | src/main/java/com/lethe_river/morelambda/algebra/Tuple.java:425-445 | cutting every input to `min` of the lengths (the `subList(0, min)` calls) does not change the zip |
| Tuples.Zip5Truncate | src/main/java/com/lethe_river/morelambda/algebra/Tuple.java:517-540 | cutting every input to `min` of the lengths (the `subList(0, min)` calls) does not change the zip |
| Tuples.Unzip2Append | src/main/java/com/lethe_river/morelambda/algebra/Tuple.java:822-836 | unzipping a concatenation concatenates the unzipped parts component by component: what the combiner relies on |
| Tuples.Unzip3Append | src/main/java/com/lethe_river/morelambda/algebra/Tuple.java:845-862 | unzipping a concatenation concatenates the unzipped parts component by component: what the combiner relies on |
| Tuples.Unzip4Append | src/main/java/com/lethe_river/morelambda/algebra/Tuple.java:872-892 | unzipping a concatenation concatenates the unzipped parts component by component: what the combiner relies on |
| Tuples.Unzip5Append | src/main/java/com/lethe_river/morelambda/algebra/Tuple.java:903-926 | unzipping a concatenation concatenates the unzipped parts component by component: what the combiner relies on |
| HalfSplit.SplitPointInRange | src/main/java/com/lethe_river/morelambda/algebra/ListHalfSplitSpliterator.java:49-57 | when `trySplit` neither declines nor throws, `count <= to < size`, so both sublists are well formed |
| HalfSplit.SplitFromStart | src/main/java/com/lethe_river/morelambda/algebra/ListHalfSplitSpliterator.java:11 | from `count == 0` and at least two elements the split neither declines nor throws, and `to == size/2` with both halves non-empty |
| HalfSplit.ThrowsExactly | src/main/java/com/lethe_river/morelambda/algebra/ListHalfSplitSpliterator.java:53-54 | `subList(count, to)` throws exactly when at least two elements remain and `size < 2*count + count/2` |
| HalfSplit.ThrowsAfterPartialTraversal | src/main/java/com/lethe_river/morelambda/algebra/ListHalfSplitSpliterator.java:53-54 | the throwing case is reachable: four elements with two consumed give `to == 1 < count` |
| HalfSplit.EmptyPrefixAfterPartialTraversal | src/main/java/com/lethe_river/morelambda/algebra/ListHalfSplitSpliterator.java:53-54 | after a partial traversal the split can hand off an empty prefix: five elements, two consumed, `to == count == 2` |
| HalfSplit.SplitCursorHalving | src/main/java/com/lethe_river/morelambda/algebra/ListHalfSplitSpliterator.java:11 | the split the class comment promises, cutting the unconsumed region at `(size + count)/2`: declines exactly when fewer than two remain, never throws, and otherwise hands off the first half of the remaining elements (rounded down, at least one) and keeps the rest, never more than one longer |
| HalfSplit.HalvingAgreesFromStart | src/main/java/com/lethe_river/morelambda/algebra/ListHalfSplitSpliterator.java:11 | from `count == 0` the halving split and the code's split are the same |
| HalfSplit.SplitAfterWindowPriming | src/main/java/com/lethe_river/morelambda/algebra/ListHalfSplitSpliterator.java:53-54 | nine elements with four consumed (what priming a window of five does) give `to == 3`, and the code's split throws, while the halving split hands off two and keeps three |
| HalfSplit.Advance | src/main/java/com/lethe_river/morelambda/algebra/ListHalfSplitSpliterator.java:29-41 | one element is delivered exactly when some remain; it is `list[count]` and `count` grows by one; otherwise nothing changes |
| HalfSplit.SplitCursor | src/main/java/com/lethe_river/morelambda/algebra/ListHalfSplitSpliterator.java:43-60 | declines exactly when fewer than two remain, throws `IllegalArgumentException` exactly when `to < count`; otherwise prefix then retained suffix equal the old remaining elements, both restarted at 0, the prefix `to - count` long |
| HalfSplit.SplitFreshCursor | src/main/java/com/lethe_river/morelambda/algebra/ListHalfSplitSpliterator.java:11 | from a fresh cursor the split hands off exactly `list[..size/2]` and keeps `list[size/2..]` |
| HalfSplit.SplitAllDeliversEverything | src/main/java/com/lethe_river/morelambda/algebra/ListHalfSplitSpliterator.java:43-60 | splitting recursively until no piece splits, then draining the pieces in order, delivers the whole list exactly once, in order |
| HalfSplit.ListHalfSplit.constructor | src/main/java/com/lethe_river/morelambda/algebra/ListHalfSplitSpliterator.java:22-27 | a new cursor owns the list, has consumed nothing and has no iterator yet |
| HalfSplit.ListHalfSplit.Create | src/main/java/com/lethe_river/morelambda/algebra/ListHalfSplitSpliterator.java:22-27 | rejects a list reporting `Integer.MAX_VALUE` elements with `IllegalArgumentException`, and otherwise gives a fresh cursor at the list's start |
| HalfSplit.ListHalfSplit.EnsureIterator | src/main/java/com/lethe_river/morelambda/algebra/ListHalfSplitSpliterator.java:31-33 | after the lazy creation the iterator exists and sits at `count` |
| HalfSplit.ListHalfSplit.TryAdvance | src/main/java/com/lethe_river/morelambda/algebra/ListHalfSplitSpliterator.java:29-41 | the element delivered and the new list and count are those of `Advance` on the old state |
| HalfSplit.ListHalfSplit.TrySplit | src/main/java/com/lethe_river/morelambda/algebra/ListHalfSplitSpliterator.java:43-60 | declines or throws leaving list and count unchanged, or hands off a fresh cursor over the prefix and keeps the suffix from count 0, as `SplitCursor` says |
| HalfSplit.ListHalfSplit.ForEachRemaining | src/main/java/com/lethe_river/morelambda/algebra/ListHalfSplitSpliterator.java:62-73 | delivers exactly the remaining elements in order and ends with `count == size`, list unchanged |
| HalfSplit.ListHalfSplit.EstimateSize | src/main/java/com/lethe_river/morelambda/algebra/ListHalfSplitSpliterator.java:75-81 | reports `size - count`, the number of remaining elements, and changes neither list nor count |
| HalfSplit.ListHalfSplit.Characteristics | src/main/java/com/lethe_river/morelambda/algebra/ListHalfSplitSpliterator.java:83-89 | always exactly ORDERED \| SUBSIZED, never SIZED |
| ZipCursors.ZipCursorCharacteristics | src/main/java/com/lethe_river/morelambda/algebra/Tuple.java:1094-1097 | ORDERED, NONNULL and SUBSIZED are set, SIZED is not, and no other bit is |
| ZipCursors.Zip2Spliterator.constructor | src/main/java/com/lethe_river/morelambda/algebra/Tuple.java:1055-1060 | the zip owns the 2 given aligned cursors |
| ZipCursors.Zip2Spliterator.TryAdvance | src/main/java/com/lethe_river/morelambda/algebra/Tuple.java:1062-1076 | advances every component, and emits the first remaining tuple exactly when one remains; afterwards exactly that tuple is gone |
| ZipCursors.Zip2Spliterator.TrySplit | src/main/java/com/lethe_river/morelambda/algebra/Tuple.java:1078-1087 | declines exactly when the components decline (the caught `NullPointerException`), throws `IllegalArgumentException` exactly when they throw; on success the prefix's tuples followed by this zip's equal the old tuples, all components stay aligned |
| ZipCursors.Zip2Spliterator.EstimateSize | src/main/java/com/lethe_river/morelambda/algebra/Tuple.java:1089-1092 | the first component's estimate is the number of tuples left |
| ZipCursors.Zip2Spliterator.Characteristics | src/main/java/com/lethe_river/morelambda/algebra/Tuple.java:1094-1097 | always ORDERED \| NONNULL \| SUBSIZED |
| ZipCursors.Zip3Spliterator.constructor | src/main/java/com/lethe_river/morelambda/algebra/Tuple.java:1106-1113 | the zip owns the 3 given aligned cursors |
| ZipCursors.Zip3Spliterator.TryAdvance | src/main/java/com/lethe_river/morelambda/algebra/Tuple.java:1117-1132 | advances every component, and emits the first remaining tuple exactly when one remains; afterwards exactly that tuple is gone |
| ZipCursors.Zip3Spliterator.TrySplit | src/main/java/com/lethe_river/morelambda/algebra/Tuple.java:1134-1144 | declines exactly when the components decline (the caught `NullPointerException`), throws `IllegalArgumentException` exactly when they throw; on success the prefix's tuples followed by this zip's equal the old tuples, all components stay aligned |
| ZipCursors.Zip3Spliterator.EstimateSize | src/main/java/com/lethe_river/morelambda/algebra/Tuple.java:1146-1149 | the first component's estimate is the number of tuples left |
| ZipCursors.Zip3Spliterator.Characteristics | src/main/java/com/lethe_river/morelambda/algebra/Tuple.java:1151-1153 | always ORDERED \| NONNULL \| SUBSIZED |
| ZipCursors.Zip4Spliterator.constructor | src/main/java/com/lethe_river/morelambda/algebra/Tuple.java:1163-1172 | the zip owns the 4 given aligned cursors |
| ZipCursors.Zip4Spliterator.TryAdvance | src/main/java/com/lethe_river/morelambda/algebra/Tuple.java:1176-1193 | advances every component, and emits the first remaining tuple exactly when one remains; afterwards exactly that tuple is gone |
| ZipCursors.Zip4Spliterator.TrySplit | src/main/java/com/lethe_river/morelambda/algebra/Tuple.java:1195-1206 | declines exactly when the components decline (the caught `NullPointerException`), throws `IllegalArgumentException` exactly when they throw; on success the prefix's tuples followed by this zip's equal the old tuples, all components stay aligned |
| ZipCursors.Zip4Spliterator.EstimateSize | src/main/java/com/lethe_river/morelambda/algebra/Tuple.java:1208-1211 | the first component's estimate is the number of tuples left |
| ZipCursors.Zip4Spliterator.Characteristics | src/main/java/com/lethe_river/morelambda/algebra/Tuple.java:1213-1215 | always ORDERED \| NONNULL \| SUBSIZED |
| ZipCursors.Zip5Spliterator.constructor | src/main/java/com/lethe_river/morelambda/algebra/Tuple.java:1227-1238 | the zip owns the 5 given aligned cursors |
| ZipCursors.Zip5Spliterator.TryAdvance | src/main/java/com/lethe_river/morelambda/algebra/Tuple.java:1242-1260 | advances every component, and emits the first remaining tuple exactly when one remains; afterwards exactly that tuple is gone |
| ZipCursors.Zip5Spliterator.TrySplit | src/main/java/com/lethe_river/morelambda/algebra/Tuple.java:1263-1275 | declines exactly when the components decline (the caught `NullPointerException`), throws `IllegalArgumentException` exactly when they throw; on success the prefix's tuples followed by this zip's equal the old tuples, all components stay aligned |
| ZipCursors.Zip5Spliterator.EstimateSize | src/main/java/com/lethe_river/morelambda/algebra/Tuple.java:1277-1280 | the first component's estimate is the number of tuples left |
| ZipCursors.Zip5Spliterator.Characteristics | src/main/java/com/lethe_river/morelambda/algebra/Tuple.java:1282-1284 | always ORDERED \| NONNULL \| SUBSIZED |
| Sources.Estimate | src/main/java/com/lethe_river/morelambda/algebra/WindowSpliterator.java:413-419 | every estimate lies in `[0, Long.MAX_VALUE]` |
| Sources.SaturatedSum | src/main/java/com/lethe_river/morelambda/algebra/WindowSpliterator.java:414-418 | adding two estimates as `long`s and replacing a negative sum by `Long.MAX_VALUE` is the sum capped at `Long.MAX_VALUE` |
| Sources.EstimateIsCappedSize | src/main/java/com/lethe_river/morelambda/algebra/WindowSpliterator.java:413-419 | a concatenation's estimate is its exact element count, capped at `Long.MAX_VALUE` |
| Sources.Advance | src/main/java/com/lethe_river/morelambda/algebra/WindowSpliterator.java:378-380 | delivers the first remaining element (of `sp1`, else of `sp2`) exactly when one remains, drops exactly it, and keeps the characteristics |
| Sources.ForEachRemaining | src/main/java/com/lethe_river/morelambda/algebra/WindowSpliterator.java:383-388 | delivers all of `sp1` then all of `sp2`, leaving nothing |
| Sources.MakeConcat | src/main/java/com/lethe_river/morelambda/algebra/WindowSpliterator.java:366-376 | throws exactly when the two characteristics differ; otherwise presents the elements of `s1` followed by those of `s2`, reporting `s2`'s characteristics |
| Sources.TrySplit | src/main/java/com/lethe_river/morelambda/algebra/WindowSpliterator.java:391-410 | in every branch the handed-off prefix followed by what remains equals the old elements; a decline or `NullPointerException` changes nothing; characteristics are kept; an exception is `NullPointerException`, the `concat` mismatch, or the one a wrapped spliterator's own `trySplit` threw |
| Sources.TrySplitShrinks | src/main/java/com/lethe_river/morelambda/algebra/WindowSpliterator.java:391-410 | on a non-empty source whose leaves hand off at least one element, every split leaves strictly fewer elements behind, so repeated splitting ends |
| Sources.TrySplitThrownDropsOneRun | src/main/java/com/lethe_river/morelambda/algebra/WindowSpliterator.java:391-410 | when a split throws, the source has lost exactly one contiguous run of its elements (the prefix `sp2.trySplit()` returned before `concat` refused it, empty for a `NullPointerException`); the elements before and after the run remain in order |
| Sources.AdvanceN | src/main/java/com/lethe_river/morelambda/algebra/WindowSpliterator.java:73-78 | `k` calls of `tryAdvance` keep the characteristics |
| Sources.AdvanceNElements | src/main/java/com/lethe_river/morelambda/algebra/WindowSpliterator.java:73-78 | `k` calls of `tryAdvance` consume exactly the first `k` elements, or all of them when there are fewer |
| Sources.ConcatSplitNeedsSecondSplit | src/main/java/com/lethe_river/morelambda/algebra/WindowSpliterator.java:402-407 | in the third branch a declining `sp2.trySplit()` makes the concatenation throw `NullPointerException` |
| Sources.TailFlagsAgree | src/main/java/com/lethe_river/morelambda/algebra/WindowSpliterator.java:48 | the tail spliterator built from the re-primed elements reports exactly the source's characteristics when the source is CONCURRENT, or SIZED and SUBSIZED, and otherwise adds SIZED and SUBSIZED; whether `concat` throws depends on the head's characteristics, which `WindowCursors.WindowCursor.HandOff` compares with these |
| Sliding.WindowsShape | src/main/java/com/lethe_river/morelambda/algebra/WindowSpliterator.java:22-28 | a sequence of `L` elements has `max(0, L - n + 1)` windows of width `n`, and window `i` is `s[i..i+n]` |
| Sliding.Primed | src/main/java/com/lethe_river/morelambda/algebra/WindowSpliterator.java:73-78 | what a primed window holds: the last `min(n - 1, \|pushed\|)` elements written |
| Sliding.WindowsStep | src/main/java/com/lethe_river/morelambda/algebra/WindowSpliterator.java:22-28 | with `n - 1` elements primed, the next element completes the first window, and the rest are those of the shifted primed part followed by what remains |
| Sliding.WindowsSplit | src/main/java/com/lethe_river/morelambda/algebra/WindowSpliterator.java:45-53 | the windows of `a` extended by the first `n - 1` elements of `s`, then the windows of `s`, are exactly the windows of `a + s` |
| Sliding.WindowsAfterPriming | src/main/java/com/lethe_river/morelambda/algebra/WindowSpliterator.java:56-62 | once primed, the number of windows still to come equals the number of elements the source has left |
| Sliding.WindowsSplitAfterHead | src/main/java/com/lethe_river/morelambda/algebra/WindowSpliterator.java:45-53 | the window split theorem in the form the cursor uses it: primed part and head with the tail, then the tail and the rest, give the unsplit windows |
| WindowCursors.Cyc | src/main/java/com/lethe_river/morelambda/algebra/WindowSpliterator.java:93 | the cyclic index `index < n - k ? index + k : index - (n - k)` always lies inside the buffer |
| WindowCursors.ShownAfterNext | src/main/java/com/lethe_river/morelambda/algebra/WindowSpliterator.java:85-94 | writing `t` after `n - 1` elements shows the primed elements followed by `t`, and the last `n - 1` of those stay primed |
| WindowCursors.Window.constructor | src/main/java/com/lethe_river/morelambda/algebra/WindowSpliterator.java:80-82 | a fresh buffer of width slots, all null, with nothing written |
| WindowCursors.Window.Next | src/main/java/com/lethe_river/morelambda/algebra/WindowSpliterator.java:85-94 | records `t` as the newest element and shows, oldest first, the slots from the new `index` on cyclically: the last `width` elements written (null where fewer) |
| WindowCursors.WindowCursor.constructor | src/main/java/com/lethe_river/morelambda/algebra/WindowSpliterator.java:18-20 | a cursor over `original` with no window yet, whose windows to come are those of the source's elements |
| WindowCursors.WindowCursor.Resume | src/main/java/com/lethe_river/morelambda/algebra/WindowSpliterator.java:50-51 | a cursor over `original` that carries on with a primed window; its windows to come are those of the primed part followed by the source |
| WindowCursors.WindowCursor.InitWindow | src/main/java/com/lethe_river/morelambda/algebra/WindowSpliterator.java:73-78 | installs a fresh window and pulls up to `width - 1` elements without emitting; returns exactly those elements, fewer only when the source ran out, and leaves the source as `width - 1` calls of `tryAdvance` do |
| WindowCursors.WindowCursor.Pull | src/main/java/com/lethe_river/morelambda/algebra/WindowSpliterator.java:76 | one `original.tryAdvance` of `initWindow`: the source advances once more, and the element it yields, if any, is written into the window and appended to the loaded elements, which stay the first `min(k, n)` elements of the source |
| WindowCursors.WindowCursor.Prime | src/main/java/com/lethe_river/morelambda/algebra/WindowSpliterator.java:24-26 | the lazy `initWindow` on first use leaves the windows still to come unchanged, and the source as primed |
| WindowCursors.WindowCursor.TryAdvance | src/main/java/com/lethe_river/morelambda/algebra/WindowSpliterator.java:22-28 | emits the first window still to come exactly when there is one, and drops exactly it |
| WindowCursors.WindowCursor.TrySplit | src/main/java/com/lethe_river/morelambda/algebra/WindowSpliterator.java:30-54 | with `p` the primed source: declines exactly when `p` estimates fewer than `width` elements or `p`'s own split declines, leaving the windows and `p` as they were; hands off a new cursor exactly when `p` splits and the head's characteristics equal `TailFlags` of `p`'s, the prefix's windows followed by this cursor's then being the unsplit windows; throws otherwise, passing on `p`'s own exception (including one a wrapped spliterator threw) or the `concat` mismatch |
| WindowCursors.WindowCursor.HandOff | src/main/java/com/lethe_river/morelambda/algebra/WindowSpliterator.java:45-53 | succeeds exactly when the head's characteristics equal `TailFlags` of the source's, and otherwise throws the `concat` mismatch; on success gives the old window to a new cursor over `concat(head, tail)` and re-primes this one, prefix windows then this cursor's windows being the windows over primed part, head and rest |
| WindowCursors.WindowCursor.EstimateSize | src/main/java/com/lethe_river/morelambda/algebra/WindowSpliterator.java:56-62 | after priming, reports the number of windows still to come (capped at `Long.MAX_VALUE`) |
| WindowCursors.WindowCursor.Characteristics | src/main/java/com/lethe_river/morelambda/algebra/WindowSpliterator.java:64-67 | the source's characteristics |
| WindowCursors.WindowCursor.ForEachRemaining | src/main/java/com/lethe_river/morelambda/algebra/WindowSpliterator.java:22-28 | repeated `tryAdvance` delivers exactly the windows still to come, in order, and leaves none |
| Zipers.SizedIffAllSized2 | src/main/java/com/lethe_river/morelambda/algebra/Tuple.java:928-938 | the merged characteristics of 2 sources are SIZED exactly when every source is |
| Zipers.Tuple2Ziper.constructor | src/main/java/com/lethe_river/morelambda/algebra/Tuple.java:944-947 | the ziper holds the 2 iterators |
| Zipers.Tuple2Ziper.HasNext | src/main/java/com/lethe_river/morelambda/algebra/Tuple.java:949-953 | true exactly when every iterator has an element left, that is, when a tuple remains |
| Zipers.Tuple2Ziper.Next | src/main/java/com/lethe_river/morelambda/algebra/Tuple.java:955-959 | the first remaining tuple, which it drops; `NoSuchElementException` exactly when no tuple remains |
| Zipers.Tuple2Ziper.ForEachRemaining | src/main/java/com/lethe_river/morelambda/algebra/Tuple.java:940-960 | `while (hasNext()) next()` delivers exactly the tuples of the zip, in order, and leaves none |
| Zipers.StreamOfSources2 | src/main/java/com/lethe_river/morelambda/algebra/Tuple.java:244-265 | the ziper yields the zip of the sources' elements; the characteristics are their merge; a size is reported exactly when every source is SIZED, and it is the number of tuples, capped at `Long.MAX_VALUE` |
| Zipers.SizedIffAllSized3 | src/main/java/com/lethe_river/morelambda/algebra/Tuple.java:928-938 | the merged characteristics of 3 sources are SIZED exactly when every source is |
| Zipers.Tuple3Ziper.constructor | src/main/java/com/lethe_river/morelambda/algebra/Tuple.java:967-971 | the ziper holds the 3 iterators |
| Zipers.Tuple3Ziper.HasNext | src/main/java/com/lethe_river/morelambda/algebra/Tuple.java:973-978 | true exactly when every iterator has an element left, that is, when a tuple remains |
| Zipers.Tuple3Ziper.Next | src/main/java/com/lethe_river/morelambda/algebra/Tuple.java:980-985 | the first remaining tuple, which it drops; `NoSuchElementException` exactly when no tuple remains |
| Zipers.Tuple3Ziper.ForEachRemaining | src/main/java/com/lethe_river/morelambda/algebra/Tuple.java:962-986 | `while (hasNext()) next()` delivers exactly the tuples of the zip, in order, and leaves none |
| Zipers.StreamOfSources3 | src/main/java/com/lethe_river/morelambda/algebra/Tuple.java:305-331 | the ziper yields the zip of the sources' elements; the characteristics are their merge; a size is reported exactly when every source is SIZED, and it is the number of tuples, capped at `Long.MAX_VALUE` |
| Zipers.SizedIffAllSized4 | src/main/java/com/lethe_river/morelambda/algebra/Tuple.java:928-938 | the merged characteristics of 4 sources are SIZED exactly when every source is |
| Zipers.Tuple4Ziper.constructor | src/main/java/com/lethe_river/morelambda/algebra/Tuple.java:995-1000 | the ziper holds the 4 iterators |
| Zipers.Tuple4Ziper.HasNext | src/main/java/com/lethe_river/morelambda/algebra/Tuple.java:1002-1008 | true exactly when every iterator has an element left, that is, when a tuple remains |
| Zipers.Tuple4Ziper.Next | src/main/java/com/lethe_river/morelambda/algebra/Tuple.java:1010-1013 | the first remaining tuple, which it drops; `NoSuchElementException` exactly when no tuple remains |
| Zipers.Tuple4Ziper.ForEachRemaining | src/main/java/com/lethe_river/morelambda/algebra/Tuple.java:988-1014 | `while (hasNext()) next()` delivers exactly the tuples of the zip, in order, and leaves none |
| Zipers.StreamOfSources4 | src/main/java/com/lethe_river/morelambda/algebra/Tuple.java:378-410 | the ziper yields the zip of the sources' elements; the characteristics are their merge; a size is reported exactly when every source is SIZED, and it is the number of tuples, capped at `Long.MAX_VALUE` |
| Zipers.SizedIffAllSized5 | src/main/java/com/lethe_river/morelambda/algebra/Tuple.java:928-938 | the merged characteristics of 5 sources are SIZED exactly when every source is |
| Zipers.Tuple5Ziper.constructor | src/main/java/com/lethe_river/morelambda/algebra/Tuple.java:1023-1029 | the ziper holds the 5 iterators |
| Zipers.Tuple5Ziper.HasNext | src/main/java/com/lethe_river/morelambda/algebra/Tuple.java:1031-1038 | true exactly when every iterator has an element left, that is, when a tuple remains |
| Zipers.Tuple5Ziper.Next | src/main/java/com/lethe_river/morelambda/algebra/Tuple.java:1040-1047 | the first remaining tuple, which it drops; `NoSuchElementException` exactly when no tuple remains |
| Zipers.Tuple5Ziper.ForEachRemaining | src/main/java/com/lethe_river/morelambda/algebra/Tuple.java:1016-1048 | `while (hasNext()) next()` delivers exactly the tuples of the zip, in order, and leaves none |
| Zipers.StreamOfSources5 | src/main/java/com/lethe_river/morelambda/algebra/Tuple.java:463-500 | the ziper yields the zip of the sources' elements; the characteristics are their merge; a size is reported exactly when every source is SIZED, and it is the number of tuples, capped at `Long.MAX_VALUE` |
| TupleStreams.StreamOfLists2 | src/main/java/com/lethe_river/morelambda/algebra/Tuple.java:276-294 | empty exactly when some list is empty, the iterator zip exactly when every list reports `Integer.MAX_VALUE` elements, else a zip cursor; in every case the tuples are the zip of the lists |
| TupleStreams.StreamOfLists3 | src/main/java/com/lethe_river/morelambda/algebra/Tuple.java:344-362 | empty exactly when some list is empty, the iterator zip exactly when every list reports `Integer.MAX_VALUE` elements, else a zip cursor; in every case the tuples are the zip of the lists |
| TupleStreams.StreamOfLists4 | src/main/java/com/lethe_river/morelambda/algebra/Tuple.java:425-445 | empty exactly when some list is empty, the iterator zip exactly when every list reports `Integer.MAX_VALUE` elements, else a zip cursor; in every case the tuples are the zip of the lists |
| TupleStreams.StreamOfLists5 | src/main/java/com/lethe_river/morelambda/algebra/Tuple.java:517-540 | empty exactly when some list is empty, the iterator zip exactly when every list reports `Integer.MAX_VALUE` elements, else a zip cursor; in every case the tuples are the zip of the lists |
| TupleStreams.WindowTuples2AreWindows | src/main/java/com/lethe_river/morelambda/algebra/Tuple.java:662-669 | the 2-tuples of consecutive elements are the sliding windows of width 2, one tuple per window, elements in order |
| TupleStreams.ZipShifts2 | src/main/java/com/lethe_river/morelambda/algebra/Tuple.java:662-669 | zipping the list with its sublists from 1 to 1 gives its runs of 2 consecutive elements |
| TupleStreams.Window2Stream | src/main/java/com/lethe_river/morelambda/algebra/Tuple.java:662-669 | empty exactly when the list has fewer than 2 elements; otherwise a zip cursor; the tuples are the windows of width 2 |
| TupleStreams.WindowTuples3AreWindows | src/main/java/com/lethe_river/morelambda/algebra/Tuple.java:701-711 | the 3-tuples of consecutive elements are the sliding windows of width 3, one tuple per window, elements in order |
| TupleStreams.ZipShifts3 | src/main/java/com/lethe_river/morelambda/algebra/Tuple.java:701-711 | zipping the list with its sublists from 1 to 2 gives its runs of 3 consecutive elements |
| TupleStreams.Window3Stream | src/main/java/com/lethe_river/morelambda/algebra/Tuple.java:701-711 | empty exactly when the list has fewer than 3 elements; otherwise a zip cursor; the tuples are the windows of width 3 |
| TupleStreams.WindowTuples4AreWindows | src/main/java/com/lethe_river/morelambda/algebra/Tuple.java:741-752 | the 4-tuples of consecutive elements are the sliding windows of width 4, one tuple per window, elements in order |
| TupleStreams.ZipShifts4 | src/main/java/com/lethe_river/morelambda/algebra/Tuple.java:741-752 | zipping the list with its sublists from 1 to 3 gives its runs of 4 consecutive elements |
| TupleStreams.Window4Stream | src/main/java/com/lethe_river/morelambda/algebra/Tuple.java:741-752 | empty exactly when the list has fewer than 4 elements; otherwise a zip cursor; the tuples are the windows of width 4 |
| TupleStreams.WindowTuples5AreWindows | src/main/java/com/lethe_river/morelambda/algebra/Tuple.java:782-794 | the 5-tuples of consecutive elements are the sliding windows of width 5, one tuple per window, elements in order |
| TupleStreams.ZipShifts5 | src/main/java/com/lethe_river/morelambda/algebra/Tuple.java:782-794 | zipping the list with its sublists from 1 to 4 gives its runs of 5 consecutive elements |
| TupleStreams.Window5Stream | src/main/java/com/lethe_river/morelambda/algebra/Tuple.java:782-794 | empty exactly when the list has fewer than 5 elements; otherwise a zip cursor; the tuples are the windows of width 5 |
| TupleStreams.Window4StreamAsWritten | src/main/java/com/lethe_river/morelambda/algebra/Tuple.java:741-752 | the code as written: empty exactly when the list has fewer than 5 elements, else the windows of width 4 |
| TupleStreams.Window4Counterexample | src/main/java/com/lethe_river/morelambda/algebra/Tuple.java:744 | a four-element list has one window of width 4, which the guard of line 744 drops |
| TupleStreams.WindowStreamOf | src/main/java/com/lethe_river/morelambda/algebra/Tuple.java:681-691 | the cursor over the stream's spliterator (or the empty spliterator below `width` elements) delivers exactly the windows of the stream |
| Comparators.FirstNonZeroIsZero | src/main/java/com/lethe_river/morelambda/algebra/Tuple.java:104-117 | the lexicographic comparison is 0 exactly when every component compares 0 |
| Comparators.FirstNonZeroIsFirst | src/main/java/com/lethe_river/morelambda/algebra/Tuple.java:104-117 | otherwise it is the result of the first component that does not compare 0, all components before it comparing 0 |
| Comparators.FirstNonZeroAntisymmetric | src/main/java/com/lethe_river/morelambda/algebra/Tuple.java:104-117 | if every component comparison is antisymmetric in sign, so is the lexicographic comparison |
| Comparators.Compare2 | src/main/java/com/lethe_river/morelambda/algebra/Tuple.java:104-117 | the `comparatorOf` if-chain over 2 components is the lexicographic combination of the component comparisons |
| Comparators.Compare3 | src/main/java/com/lethe_river/morelambda/algebra/Tuple.java:133-151 | the `comparatorOf` if-chain over 3 components is the lexicographic combination of the component comparisons |
| Comparators.Compare4 | src/main/java/com/lethe_river/morelambda/algebra/Tuple.java:167-190 | the `comparatorOf` if-chain over 4 components is the lexicographic combination of the component comparisons |
| Comparators.Compare5 | src/main/java/com/lethe_river/morelambda/algebra/Tuple.java:208-233 | the `comparatorOf` if-chain over 5 components is the lexicographic combination of the component comparisons |
| Products.PairWith | src/main/java/com/lethe_river/morelambda/algebra/Tuple.java:556 | `v1` paired with each element of `s2`, in order |
| Products.PairTo | src/main/java/com/lethe_river/morelambda/algebra/Tuple.java:575 | each element of `s1` paired with `v2`, in order |
| Products.ProductSizes | src/main/java/com/lethe_river/morelambda/algebra/Tuple.java:552-579 | the product has `\|s1\| * \|s2\|` pairs in either nesting order |
| Products.ProductRowsAt | src/main/java/com/lethe_river/morelambda/algebra/Tuple.java:552-557 | row-major (v1-major) order, as `productStream(Stream, Stream)` and the private `productStream(Stream, Collection)` (lines 577-579) build it: pair `(s1[i], s2[j])` sits at position `i * \|s2\| + j` |
| Products.ProductColumnsAt | src/main/java/com/lethe_river/morelambda/algebra/Tuple.java:574-576 | column-major order, as the private `productStream(Collection, Stream)` builds it: pair `(s1[i], s2[j])` sits at position `j * \|s1\| + i` |
| Products.ProductOrdersArePermutations | src/main/java/com/lethe_river/morelambda/algebra/Tuple.java:569-579 | both nesting orders produce the same multiset of pairs |
| Products.ProductOfCollectionsPairs | src/main/java/com/lethe_river/morelambda/algebra/Tuple.java:569-573 | whichever collection is iterated innermost, `productStream(c1, c2)` delivers every pair exactly once: `\|c1\| * \|c2\|` pairs, a permutation of the row-major product |
| Products.ProductOfCollectionsAt | src/main/java/com/lethe_river/morelambda/algebra/Tuple.java:569-579 | the collection that reports more elements drives the outer loop: when `c1` is smaller, pair `(c1[i], c2[j])` sits at `j * \|c1\| + i`, otherwise at `i * \|c2\| + j` |
| IndexedStreams.IterateAt | src/main/java/com/lethe_river/morelambda/algebra/Tuple.java:589-591 | value `i` of `IntStream.iterate(start, i -> i+1)` is `start + i` in Java `int` arithmetic |
| IndexedStreams.IterateLength | src/main/java/com/lethe_river/morelambda/algebra/Tuple.java:589-591 | the first `n` values of the iteration are `n` values |
| IndexedStreams.StreamWithIndex | src/main/java/com/lethe_river/morelambda/algebra/Tuple.java:589-591 | the ziper pairs element `i` of the collection with `start + i` (as a Java `int`), has exactly as many tuples as the collection, and reports no size |
| IndexedStreams.StreamWithIndexFromZero | src/main/java/com/lethe_river/morelambda/algebra/Tuple.java:599-601 | element `i` is paired with `i` |
| IndexedStreams.IndexExample | src/main/java/com/lethe_river/morelambda/algebra/Tuple.java:583 | the documented example: `["A", "B", "C"]` from 2 gives `(A, 2), (B, 3), (C, 4)` |
| Collectors.Lists2.constructor | src/main/java/com/lethe_river/morelambda/algebra/Tuple.java:822-836 | the supplier: 2 empty lists, nothing seen |
| Collectors.Lists2.Accumulate | src/main/java/com/lethe_river/morelambda/algebra/Tuple.java:822-836 | appends each component of the tuple to its list and keeps every list the unzip of the tuples seen |
| Collectors.Lists2.AccumulateEach | src/main/java/com/lethe_river/morelambda/algebra/Tuple.java:822-836 | accumulating a sequence of tuples in order keeps the lists the unzip of everything seen |
| Collectors.Lists2.Combine | src/main/java/com/lethe_river/morelambda/algebra/Tuple.java:822-836 | appends each list of `right` to the matching list of `left` and returns `left`; the lists stay the unzip of the tuples seen on both sides, in order |
| Collectors.CollectToList2 | src/main/java/com/lethe_river/morelambda/algebra/Tuple.java:822-836 | a sequential collection of `ts` gives the unzip of `ts` |
| Collectors.CollectToList2InParts | src/main/java/com/lethe_river/morelambda/algebra/Tuple.java:822-836 | collecting two parts separately and combining them gives the unzip of the whole, in order |
| Collectors.Lists3.constructor | src/main/java/com/lethe_river/morelambda/algebra/Tuple.java:845-862 | the supplier: 3 empty lists, nothing seen |
| Collectors.Lists3.Accumulate | src/main/java/com/lethe_river/morelambda/algebra/Tuple.java:845-862 | appends each component of the tuple to its list and keeps every list the unzip of the tuples seen |
| Collectors.Lists3.AccumulateEach | src/main/java/com/lethe_river/morelambda/algebra/Tuple.java:845-862 | accumulating a sequence of tuples in order keeps the lists the unzip of everything seen |
| Collectors.Lists3.Combine | src/main/java/com/lethe_river/morelambda/algebra/Tuple.java:845-862 | appends each list of `right` to the matching list of `left` and returns `left`; the lists stay the unzip of the tuples seen on both sides, in order |
| Collectors.CollectToList3 | src/main/java/com/lethe_river/morelambda/algebra/Tuple.java:845-862 | a sequential collection of `ts` gives the unzip of `ts` |
| Collectors.CollectToList3InParts | src/main/java/com/lethe_river/morelambda/algebra/Tuple.java:845-862 | collecting two parts separately and combining them gives the unzip of the whole, in order |
| Collectors.Lists4.constructor | src/main/java/com/lethe_river/morelambda/algebra/Tuple.java:872-892 | the supplier: 4 empty lists, nothing seen |
| Collectors.Lists4.Accumulate | src/main/java/com/lethe_river/morelambda/algebra/Tuple.java:872-892 | appends each component of the tuple to its list and keeps every list the unzip of the tuples seen |
| Collectors.Lists4.AccumulateEach | src/main/java/com/lethe_river/morelambda/algebra/Tuple.java:872-892 | accumulating a sequence of tuples in order keeps the lists the unzip of everything seen |
| Collectors.Lists4.Combine | src/main/java/com/lethe_river/morelambda/algebra/Tuple.java:872-892 | appends each list of `right` to the matching list of `left` and returns `left`; the lists stay the unzip of the tuples seen on both sides, in order |
| Collectors.CollectToList4 | src/main/java/com/lethe_river/morelambda/algebra/Tuple.java:872-892 | a sequential collection of `ts` gives the unzip of `ts` |
| Collectors.CollectToList4InParts | src/main/java/com/lethe_river/morelambda/algebra/Tuple.java:872-892 | collecting two parts separately and combining them gives the unzip of the whole, in order |
| Collectors.Lists5.constructor | src/main/java/com/lethe_river/morelambda/algebra/Tuple.java:903-926 | the supplier: 5 empty lists, nothing seen |
| Collectors.Lists5.Accumulate | src/main/java/com/lethe_river/morelambda/algebra/Tuple.java:903-926 | appends each component of the tuple to its list and keeps every list the unzip of the tuples seen |
| Collectors.Lists5.AccumulateEach | src/main/java/com/lethe_river/morelambda/algebra/Tuple.java:903-926 | accumulating a sequence of tuples in order keeps the lists the unzip of everything seen |
| Collectors.Lists5.Combine | src/main/java/com/lethe_river/morelambda/algebra/Tuple.java:903-926 | appends each list of `right` to the matching list of `left` and returns `left`; the lists stay the unzip of the tuples seen on both sides, in order |
| Collectors.CollectToList5 | src/main/java/com/lethe_river/morelambda/algebra/Tuple.java:903-926 | a sequential collection of `ts` gives the unzip of `ts` |
| Collectors.CollectToList5InParts | src/main/java/com/lethe_river/morelambda/algebra/Tuple.java:903-926 | collecting two parts separately and combining them gives the unzip of the whole, in order |

## Left out

- JDK plumbing: `StreamSupport.stream`, `Spliterators.iterator`, `Spliterators.spliterator`, `spliteratorUnknownSize`, the `isParallel` flag and fork-join execution. A stream front end returns the cursor or ziper it would wrap; parallel execution is the caller's concern.
- The spliterators that `Sources` and the front ends receive from outside (a list's or collection's own spliterator, a stream's spliterator) are a `Leaf` holding the elements it has left and fixed characteristics (`LIST_FLAGS` and `COLLECTION_FLAGS` as the JDK's list and collection spliterators report them, `ITERATE_FLAGS` the ORDERED of a wrapped stream stage). What such a spliterator's own `trySplit` does is a parameter `cut`: decline, hand off a prefix, or throw a given exception (as a zip cursor over lists does after a partial traversal), and its estimate is exact (capped at `Long.MAX_VALUE`); the `estimateSize() < N` guards of `windowNStream(Stream)` are modelled under that assumption.
- `Consumer` callbacks: every traversal returns what it would hand to the action; the shared `Object[] tuple` scratch buffer of the zip cursors is not modelled.
- Aliasing of wrapped spliterators: the zip cursors own their list cursors as values (`HalfSplit.Cursor`), and `concat` and the window cursor's source are values (`Sources.Source`), updated by reassignment; `concat`'s `sp1 = null` is `first := None`.
- `Window2Spliterator` .. `Window5Spliterator` and `Window2` .. `Window5` are one class each with a `width` in 2..5; the emitted tuple is the sequence of its `width` elements. `initWindow`'s `width - 1` separate `tryAdvance` calls are a loop.
- `concat`'s `getComparator`, the `Tuple2` .. `Tuple4` records' `hashCode`, `equals` and `toString`, and `Tuple.of`: the records are datatypes with structural equality.
- The private `Window2Spliterator` inside `Tuple` (unreferenced), `Tuple.stream(Map)` (map iteration order is unspecified) and `toMap`.
- The `throwable` package (exception adapters around arbitrary lambdas).
- `comparatorOf` compares components by their `Comparable.compareTo`, code outside this model: each component comparison is a function parameter.
- `IndexedStreams.StreamWithIndex`: `IntStream.iterate` is endless; only its first `|collection|` values are modelled, since the zip never reads further.
- `ProductOfCollections` and `ProductRows` model `productStream` over already collected sequences; `Collectors.toList()` and `flatMap` laziness are not modelled.
- The `toList` collectors' container is a class whose lists are `seq` fields; `ArrayList` growth is not modelled.
- `Zipers.Tuple2Ziper.Next` (and `Tuple3Ziper` .. `Tuple5Ziper`): on `NoSuchElementException` the contract does not state which iterators already moved on.
- `WindowCursors.WindowCursor.TrySplit`: after an exception the contract states only that the cursor stays well formed, not which elements the source has already lost (`Sources.TrySplitThrownDropsOneRun` states that for the source on its own).
- `Sources.TrySplit`: its contract does not itself say what a source keeps after `concat` throws; `Sources.TrySplitThrownDropsOneRun` does.
- `Zipers.StreamOfSources2` .. `Zipers.StreamOfSources5`, `TupleStreams.WindowStreamOf` and `WindowCursors.WindowCursor`: every source is a finite sequence. An endless stream (`Stream.iterate`, `Stream.generate`, the `IntStream.iterate` of line 590 of `Tuple.java`) is represented by its first `k` elements, which is all a traversal that stops after `k` elements reads; behaviour that depends on the stream never ending is not modelled.
- `HalfSplit.ListHalfSplit.TrySplit` and the zip cursors keep the split point as written (see "Findings"); the halving split `HalfSplit.SplitCursorHalving` is proved on its own and is not what the cursors run, since the exception they raise after a partial traversal is part of the behaviour modelled.
- `HalfSplit.ListHalfSplit.constructor`: requires the list not to report `Integer.MAX_VALUE` elements; the throwing public constructor is `HalfSplit.ListHalfSplit.Create`.
- Concurrency: a cursor and the cursors split from it are used by one thread at a time, as the library requires.

## Findings

| source | as written | input that shows it | evidently intended | confidence | as-written member | corrected member |
|---|---|---|---|---|---|---|
| src/main/java/com/lethe_river/morelambda/algebra/Tuple.java:744 | `window4Stream(List)` returns an empty stream below five elements | a list of four elements, which has one window of width 4 | empty only below four elements, as `window4Stream(Stream)` (line 767) and the other list variants do | not executed | TupleStreams.Window4StreamAsWritten, TupleStreams.Window4Counterexample | TupleStreams.Window4Stream |
| src/main/java/com/lethe_river/morelambda/algebra/ListHalfSplitSpliterator.java:53-54 | `trySplit` cuts at the absolute index `(size - count/2)/2`, which lies before `count` after a partial traversal, and `subList(count, to)` throws | a window of five over `Tuple.stream(l1, l2)` of two nine-element lists, split after priming: priming consumes four, `to == (9 - 2)/2 == 3 < 4` | cut the remaining elements in half, at `(size + count)/2`, as the class comment (line 11) says | not executed | HalfSplit.SplitCursor, HalfSplit.SplitAfterWindowPriming | HalfSplit.SplitCursorHalving |
