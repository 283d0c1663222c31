# parallel-sort, modelled in Dafny

parallel-sort holds four prototypes of one algorithm: a merge sort of an
`int[]` that uses a scratch buffer as long as the array. Every prototype is
built from the same two blocks:

- the leaf sort `Arrays.sort(arr, from, to)`;
- the two-pointer merge `doMerge`. It merges two runs of `arr` into the same
  index range of `buffer`, then copies that range back with
  `System.arraycopy`.

The prototypes differ in how they split the array:

- **Prototype1** halves recursively and sequentially. A segment of at most
  `SEGMENT_MAX_SIZE` (10) elements is sorted directly. A longer one is split
  at `len / 2`, both halves are sorted, and the halves are merged.
- **Prototype2** does the same halving with fork/join `Worker`s. Its
  threshold defaults to 10 and can be set through a constructor.
- **Prototype3** does the same halving. Its threshold defaults to 10000 and
  is changed with `setSegmentSize`, and each `psort` allocates its own
  buffer.
- **Prototype4** does not recurse. An array shorter than 1000 is sorted
  directly. A longer one is cut into four contiguous quarters, which are
  sorted. Quarters one and two are merged, then three and four, and finally
  the two halves.

The model is split into these modules:

- `SortSpec` (`sort_spec.dfy`) holds the values on sequences:
  - `Sorted`, and a reference sort `Sort` that is proved to be the only
    sorted permutation of its input;
  - the merge `Merge`, with the Java tie-break;
  - `SortRange` and `MergeRange`, the effect of sorting or merging one index
    range of a whole array snapshot.
- `Partition` (`partition.dfy`) holds the split arithmetic of both policies.
- `Kernels` (`kernels.dfy`) holds the leaf sort and the merge as methods on
  `array<int>`. The merge keeps the cursor loop `i`, `j`, `k` and the
  copy-back.
- `Halving` (`halving.dfy`) holds the recursive step shared by Prototype1–3.
  It also holds `ScratchAfterSort`, the exact buffer contents the halving
  sort leaves behind.
- `Prototype1` … `Prototype4` (`prototype1.dfy` … `prototype4.dfy`) hold one
  class per Java class: the sorters and their `Worker`, `Sorter` and `Merger`
  tasks. Each keeps the fields and methods that take part in sorting, plus
  the `debug` flags and their setters.
  - The `pool` fields, `shutdown` and the `main` demos are not modelled (see
    "Left out").
  - Every `doMerge`, and the loop of `Merger.call`, is the one shared method
    Kernels.MergeRuns rather than a method of each class.

Every `psort` is proved to leave the array equal to `Sort` of its old
contents. The strategies therefore agree with each other and with the
library sort, and a second `psort` changes nothing.

## Model

| member | source | states |
|---|---|---|
| SortSpec.Sort | parallel-sort/src/main/java/Prototype4.java:75 | the array after `Arrays.sort(arr)`, and the target the test harness builds with `Arrays.sort` (Test3.java:55-56): an insertion sort with as many elements as its input. SortCorrect and SortedUnique make it the only sorted permutation of the input |
| SortSpec.SortRange | parallel-sort/src/main/java/Prototype1.java:34 | the array after sorting [lo, hi) in place with `Arrays.sort(arr, lo, hi)`: the sort of that range spliced back at lo, with the array's length unchanged. SortRangeMeaning and LeafSortResult prove it is exactly "sorted inside, a permutation inside, unchanged outside" |
| Halving.SortSegment | parallel-sort/src/main/java/Prototype1.java:27-52 | the array after doSort/compute of the len elements at offset: SortRange over [offset, offset + len) in the offset/length form the Java uses, with the array's length unchanged |
| SortSpec.Descending | parallel-sort/src/test/java/Test3.java:47-52 | the harness input `data[d] = n - d`, that is n, n-1, …, 1, of length n |
| SortSpec.SortCorrect | parallel-sort/src/main/java/Prototype1.java:34 | the reference sort returns a sorted permutation of its input, as the library sort does |
| SortSpec.SortedUnique | parallel-sort/src/test/java/Test3.java:86-89 | two sorted sequences with the same multiset are equal, so any correct sort yields the same array as `Arrays.sort` |
| SortSpec.SortedIsFixpoint | parallel-sort/src/test/java/Test3.java:69-89 | a sequence that is already sorted is its own sort |
| SortSpec.SortIdempotent | parallel-sort/src/test/java/Test3.java:69-89 | sorting already sorted data again leaves it equal to the sorted target |
| SortSpec.DescendingAscendingSameValues | parallel-sort/src/test/java/Test3.java:46-63 | the reverse-ordered test input n … 1 holds the same values as 1 … n |
| SortSpec.SortDescending | parallel-sort/src/test/java/Test3.java:46-63 | the reverse-ordered input n … 1 sorts to 1 … n, the check the test makes on its target |
| SortSpec.Merge | parallel-sort/src/main/java/Prototype1.java:62-85 | the run the cursor loop writes. While both runs have elements, the head of the first is taken only when it is strictly less than the head of the second; otherwise the head of the second is taken. The remaining run is then drained. The result has exactly as many elements as the two runs together |
| SortSpec.MergeRange | parallel-sort/src/main/java/Prototype1.java:54-88 | the array after doMerge: the merge of the run at offset1 and the run at offset2 is written at offset1 (the copy-back), and the array keeps its length |
| SortSpec.MergePermutation | parallel-sort/src/main/java/Prototype1.java:62-85 | the merge emits exactly the elements of the two runs, as a multiset |
| SortSpec.MergeSorted | parallel-sort/src/main/java/Prototype1.java:62-85 | merging two sorted runs gives a sorted run |
| SortSpec.MergeTieTakesSecond | parallel-sort/src/main/java/Prototype2.java:87-94 | on a tie, or when the second head is smaller, the head of the second run is emitted and the first run keeps its head (right-biased) |
| SortSpec.MergeOfSorts | parallel-sort/src/main/java/Prototype1.java:19-25 | merging the sorts of two pieces is the sort of their concatenation |
| SortSpec.SpliceSlices | parallel-sort/src/main/java/Prototype1.java:87 | after a copy into one range, that range holds the copied run and the rest keeps its old values |
| SortSpec.SortRangeMeaning | parallel-sort/src/main/java/Prototype4.java:164 | sorting a range leaves it sorted and a permutation of its old contents, and every index outside it keeps its value |
| SortSpec.MergeRangeMeaning | parallel-sort/src/main/java/Prototype1.java:54-88 | merging two adjacent sorted runs leaves the combined range sorted and a permutation of its old contents, and every index outside it unchanged |
| SortSpec.MergeOfRuns | parallel-sort/src/main/java/Prototype3.java:141-164 | the merge of two adjacent runs holds the values of their union, and it is sorted when both runs are |
| SortSpec.SortRangeCommute | parallel-sort/src/main/java/Prototype2.java:60-63 | sorting two disjoint ranges gives the same array in either order, so the forked siblings may run in any order |
| SortSpec.MergeRangeCommute | parallel-sort/src/main/java/Prototype4.java:116-134 | merging two pairs of adjacent runs that lie in disjoint ranges gives the same array in either order, so the two concurrent first-round merges may run in any order |
| SortSpec.SortHalvesThenMergeAt | parallel-sort/src/main/java/Prototype1.java:19-25 | sorting [lo, mid), then sorting [mid, hi), then merging the two runs at lo is sorting [lo, hi) |
| SortSpec.SortRunsThenMerge | parallel-sort/src/main/java/Prototype4.java:137 | the same step with the run lengths passed as doMerge and Merger receive them |
| SortSpec.TwoSortedHalves | parallel-sort/src/main/java/Prototype1.java:22-23 | after sorting the two halves, each holds its own sorted values and nothing outside the segment has changed |
| SortSpec.SortRangeWhole | parallel-sort/src/main/java/Prototype1.java:16 | sorting the range [0, length) is sorting the whole array |
| Partition.Halve | parallel-sort/src/main/java/Prototype1.java:38-41 | the children are contiguous and add up to the parent, `len1 <= len2 <= len1 + 1`, and for `len >= 2` both are non-empty and strictly shorter than the parent |
| Partition.HalveOneMakesNoProgress | parallel-sort/src/main/java/Prototype3.java:94-107 | with a threshold of 0 or less, a segment of length 1 is not a leaf and splits into lengths 0 and 1; below 0, a segment of length 0 splits into two of length 0. The halving never reaches a leaf, so the Java recursion runs until `StackOverflowError` |
| Partition.QuarterSplit | parallel-sort/src/main/java/Prototype4.java:83-90 | the four segments start at 0, are contiguous, end at n, and their lengths add up to n |
| Partition.QuarterSizes | parallel-sort/src/main/java/Prototype4.java:83-90 | `len1 == len3`, `len1 <= len2`, `len3 <= len4 <= len1 + 2`, and every quarter is non-empty once n >= 4 (so for every n >= 1000) |
| Kernels.LeafSort | parallel-sort/src/main/java/Prototype1.java:34 | the range ends holding its sorted values and nothing else in the array changes |
| Kernels.LeafSortResult | parallel-sort/src/main/java/Prototype2.java:51 | an array that is sorted on the range, a permutation of the old one and unchanged outside the range is exactly the range-sorted array |
| Kernels.SameValuesInside | parallel-sort/src/main/java/Prototype3.java:100 | a permutation that leaves everything outside a range alone holds the same values inside it |
| Kernels.MergeRuns | parallel-sort/src/main/java/Prototype1.java:54-88 | the array becomes MergeRange of its old contents, and the buffer changes only in [offset1, offset1+len1+len2), where it holds the merged run |
| Kernels.MergeIntoBuffer | parallel-sort/src/main/java/Prototype1.java:58-85 | the cursor loop writes the merge of the two runs into the buffer range at offset1 and nothing else; its invariant is `k == i + j` with the buffer holding the first k merged elements |
| Kernels.TakeFirst | parallel-sort/src/main/java/Prototype1.java:66-68 | when the head of the first run is taken, it is the next merged element and the rest of the merge continues after it |
| Kernels.TakeSecond | parallel-sort/src/main/java/Prototype1.java:70-73 | when the head of the second run is taken (ties included), it is the next merged element and the rest of the merge continues after it |
| Kernels.ArrayCopy | parallel-sort/src/main/java/Prototype1.java:87 | `System.arraycopy` makes the destination range a copy of the source range and changes nothing else |
| Halving.ScratchAfterSort | parallel-sort/src/main/java/Prototype1.java:27-52 | the buffer left behind by doSort/compute of a segment. A leaf leaves it unchanged; a split segment leaves the sorted segment in the buffer at the segment's own indices, because the last doMerge writes the whole range there. Its length is the old buffer's |
| Halving.ScratchOutside | parallel-sort/src/main/java/Prototype1.java:68-83 | the halving sort of a segment writes the buffer only inside that segment |
| Halving.HalvingScratch | parallel-sort/src/main/java/Prototype1.java:87 | after the last merge of a segment, the buffer holds the sorted segment whatever the halves left in it |
| Halving.HalvingStep | parallel-sort/src/main/java/Prototype1.java:36-44 | splitting a segment longer than the threshold, sorting both halves and merging them leaves the segment sorted, with the buffer as a direct sort of the segment leaves it |
| Prototype1.Prototype1.constructor | parallel-sort/src/main/java/Prototype1.java:5-11 | the threshold starts at 10 and there is no buffer yet |
| Prototype1.Prototype1.Psort | parallel-sort/src/main/java/Prototype1.java:13-17 | the array ends equal to its sorted copy, and the buffer is a fresh array of the same length |
| Prototype1.Prototype1.SegmentedSort | parallel-sort/src/main/java/Prototype1.java:19-25 | the array becomes the merge at offset1 of the two runs, each sorted first, and the buffer is changed only by those steps |
| Prototype1.Prototype1.DoSort | parallel-sort/src/main/java/Prototype1.java:27-52 | `arr[offset..offset+len)` ends sorted, every other index keeps its value, and the buffer ends as ScratchAfterSort describes |
| Prototype2.Prototype2.constructor | parallel-sort/src/main/java/Prototype2.java:12-15 | the threshold starts at DEFAULT_SEGMENT_MAX_SIZE (10) |
| Prototype2.Prototype2.WithSegmentMaxSize | parallel-sort/src/main/java/Prototype2.java:17-20 | the threshold is the given value, whatever it is |
| Prototype2.Prototype2.Psort | parallel-sort/src/main/java/Prototype2.java:22-27 | a fresh buffer of the array's length; the array ends equal to its sorted copy |
| Prototype2.Worker.constructor | parallel-sort/src/main/java/Prototype2.java:37-42 | the Worker records its array, offset and length |
| Prototype2.Worker.Compute | parallel-sort/src/main/java/Prototype2.java:44-73 | `arr[offset..offset+len)` ends sorted, every other index keeps its value, and the buffer ends as ScratchAfterSort describes |
| Prototype2.InvokeAll | parallel-sort/src/main/java/Prototype2.java:60-63 | both child segments end sorted, first the left one and then the right one |
| Prototype3.Prototype3.constructor | parallel-sort/src/main/java/Prototype3.java:34-42 | the threshold starts at DEFAULT_SEGMENT_MAX_SIZE (10000) and debugging is off |
| Prototype3.Prototype3.SetDebug | parallel-sort/src/main/java/Prototype3.java:44-47 | only the debug flag changes |
| Prototype3.Prototype3.SetSegmentSize | parallel-sort/src/main/java/Prototype3.java:49-52 | the threshold becomes any given int; nothing else changes |
| Prototype3.Prototype3.Psort | parallel-sort/src/main/java/Prototype3.java:58-62 | the array ends equal to its sorted copy |
| Prototype3.Worker.constructor | parallel-sort/src/main/java/Prototype3.java:76-85 | the Worker records its array, segment, threshold, shared buffer and debug flag |
| Prototype3.Worker.Compute | parallel-sort/src/main/java/Prototype3.java:87-128 | `arr[offset..offset+len)` ends sorted, every other index keeps its value, and the buffer ends as ScratchAfterSort describes |
| Prototype3.InvokeAll | parallel-sort/src/main/java/Prototype3.java:114 | both child segments end sorted, first the left one and then the right one |
| Prototype4.Prototype4.constructor | parallel-sort/src/main/java/Prototype4.java:51-55 | debugging is off |
| Prototype4.Prototype4.SetDebug | parallel-sort/src/main/java/Prototype4.java:62-65 | the debug flag becomes the given value |
| Prototype4.Prototype4.Psort | parallel-sort/src/main/java/Prototype4.java:71-138 | the array ends equal to its sorted copy, both below the 1000-element cutoff and through the four sorts and three merges |
| Prototype4.Sorter.constructor | parallel-sort/src/main/java/Prototype4.java:148-155 | the Sorter records its array, segment and debug flag |
| Prototype4.Sorter.Call | parallel-sort/src/main/java/Prototype4.java:157-177 | `arr[offset..offset+len)` ends sorted and nothing else in arr changes |
| Prototype4.Merger.constructor | parallel-sort/src/main/java/Prototype4.java:191-201 | the Merger records its arrays, debug flag and two runs |
| Prototype4.Merger.Call | parallel-sort/src/main/java/Prototype4.java:203-256 | the array becomes MergeRange of its old contents, and the buffer changes only in the merged range, where it holds the merged run |
| Prototype4.QuarterSchedule | parallel-sort/src/main/java/Prototype4.java:92-137 | sorting the four quarters, merging one with two and three with four, then merging the halves gives the sorted array |
| Prototype4.FourSorts | parallel-sort/src/main/java/Prototype4.java:99-106 | the four quarter sorts give the same array whether the first two or the last two run first |
| Prototype4.Regroup | parallel-sort/src/main/java/Prototype4.java:116-134 | sorting the first half commutes with the sorts of the third and fourth quarters |

## Left out

- Threads are not modelled. This covers `ForkJoinPool`, `RecursiveAction.invokeAll`, the four-thread `ExecutorService` with `invokeAll` and `Future.get`, and `shutdown`.
  - The forked tasks run one after another: left then right in Prototype2 and 3, and list order in Prototype4.
  - Concurrent tasks touch disjoint ranges. SortSpec.SortRangeCommute (two sorts), SortSpec.MergeRangeCommute (two merges), Prototype4.FourSorts and Prototype4.Regroup show that the order does not change the array.
  - Scheduling and memory visibility are not modelled.
- Prototype2.InvokeAll and Prototype3.InvokeAll state the sequential order only; concurrent execution is not modelled.
- Prototype4.Prototype4.Psort does not model the `RuntimeException` that wraps a failed worker (Prototype4.java:108-112 and 130-134). Every modelled task completes normally.
- Printing is not modelled. This covers the always-on `System.out` calls of Prototype1 and Prototype2 and the `debug`-guarded ones of Prototype3 and Prototype4. The `debug` flags are kept as fields of Prototype3, Prototype4 and their `Worker`, `Sorter` and `Merger` tasks. Prototype1 and Prototype2 have no such flag.
  - The debug loops of `Sorter.call` and `Merger.call` (Prototype4.java:169-172 and 248-251) run from `offset` to `len`. Outside the first quarter they list the wrong elements or none.
  - They only print and do not change the array, so they do not affect the model.
- Kernels.LeafSort stands in for `Arrays.sort` with an insertion sort. It keeps the library call's contract: sorted range, same values, nothing else touched. The dual-pivot quicksort internals are not modelled.
- Prototype1.Prototype1.Psort, Prototype1.Prototype1.DoSort and Prototype1.Prototype1.SegmentedSort require the threshold to be at least 1. So do Prototype2.Prototype2.Psort, Prototype2.Worker.Compute, Prototype3.Prototype3.Psort and Prototype3.Worker.Compute. The Java accepts any int (the public static `SEGMENT_MAX_SIZE`, the `int` constructor, `setSegmentSize`). With a threshold of 0 or less, a segment of length 1 (and, below 0, one of length 0) splits without end (Partition.HalveOneMakesNoProgress). The Java recursion, through doSort→segmentedSort→doSort in Prototype1 and through `invokeAll` in Prototype2 and 3, then fails with `StackOverflowError`, which `pool.invoke` rethrows. The model excludes such calls instead of modelling that failure. The requirement also excludes one call the Java completes: `psort` of an empty array with a threshold of 0, where the empty segment is a leaf (`0 <= 0`).
- Prototype1's `SEGMENT_MAX_SIZE` is a mutable static field. Here it is an instance field that the constructor sets to 10.
- The scratch buffer starts as null in Prototype1 and Prototype2. Here it is an empty array until the first `psort`.
- Prototype2.Worker.Compute, Prototype3.Worker.Compute and Prototype1.Prototype1.DoSort require `arr != buffer`, a buffer at least as long as the array, and a segment inside the array. They are private, and `psort` always sets things up that way.
- Prototype4.Sorter.Call requires only that its segment lies inside `arr`; it has no buffer.
- Prototype4.Merger.Call requires `arr != buffer`, both runs inside `arr`, and `offset1 + len1 + len2 <= buffer.Length`. `psort` meets these with a buffer of the array's length.
- Prototype1.Prototype1.SegmentedSort is public, but it carries DoSort's requirements. They differ from the Java's behaviour in both directions:
  - they exclude calls the Java completes. After a `psort` of a shorter array, `segmentedSort` on a longer array succeeds as long as it writes only buffer indices below the old length, but `arr.Length <= buffer.Length` rejects it;
  - they exclude Java error paths, which are not modelled. A run that reaches past the end of the array throws `ArrayIndexOutOfBoundsException`, possibly after part of the array has been sorted;
  - an empty array stands in for the null buffer, so the model accepts calls the Java rejects. Before any `psort`, `SegmentedSort(a, 0, 0, 0, 0)` on an empty `a` meets every requirement and changes nothing, while the Java throws `NullPointerException` at `System.arraycopy(null, …)` (Prototype1.java:87). With non-empty runs before any `psort`, the empty stand-in makes `arr.Length <= buffer.Length` fail, so that `NullPointerException` path is excluded rather than modelled.
- The `pool` fields of Prototype3 and Prototype4 (a `ForkJoinPool` and a four-thread `ExecutorService`) are not modelled; they are part of the thread machinery above.
- Prototype4 `Arrays.sort(arr)` on a short array is modelled as the leaf sort over `[0, length)`.
- Java `int` overflow is not modelled. Every index and length is at most `arr.length`, so no sum in the code can overflow.
- The `main` demos of Prototype1 and Prototype2 are not modelled, and neither are the timing, averaging and CSV output of the test harnesses. From the harnesses the model keeps only their correctness checks: SortSpec.SortDescending and SortSpec.SortIdempotent.
- The merge is right-biased on ties. Where two values compare equal, the element of the second run goes first (SortSpec.MergeTieTakesSecond). On `int` values equal keys are indistinguishable, so the sorted result is the same either way.
