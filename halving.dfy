/**
 * The recursive halving sort shared by Prototype1.doSort, Prototype2's
 * Worker.compute and Prototype3's Worker.compute: a segment no longer than
 * the threshold is sorted directly, a longer one is split at len / 2, both
 * halves are sorted and the halves are merged through the scratch buffer.
 */
module Halving {
  import opened SortSpec

  /**
   * The array snapshot s after the len elements at offset have been sorted:
   * SortRange in the offset/length form in which doSort and compute name a
   * segment.
   */
  function SortSegment(s: seq<int>, offset: int, len: int): (r: seq<int>)
    requires 0 <= offset && 0 <= len && offset + len <= |s|
    ensures |r| == |s|
  {
    SortRange(s, offset, offset + len)
  }

  /** SortSegment over the len elements at offset is SortRange up to hi = offset + len. */
  lemma SortSegmentIsRange(s: seq<int>, offset: int, len: int, hi: int)
    requires 0 <= offset && 0 <= len && hi == offset + len && hi <= |s|
    ensures SortSegment(s, offset, len) == SortRange(s, offset, hi)
  {
  }

  /**
   * The scratch buffer b after the halving sort of s[offset..offset+len): a
   * leaf leaves it alone; otherwise the last merge leaves the sorted range in
   * it, because doMerge writes the whole range into the buffer before it
   * copies it back.
   */
  function ScratchAfterSort(b: seq<int>, s: seq<int>, offset: int, len: int, threshold: int): (r: seq<int>)
    requires 0 <= offset && 0 <= len && offset + len <= |s| && offset + len <= |b|
    ensures |r| == |b|
  {
    if len <= threshold then b else Splice(b, offset, Sort(s[offset..offset + len]))
  }

  /** The halving sort of a segment writes the scratch buffer inside that segment only. */
  lemma ScratchOutside(b: seq<int>, s: seq<int>, offset: int, len: int, threshold: int)
    requires 0 <= offset && 0 <= len && offset + len <= |s| && offset + len <= |b|
    ensures forall k :: 0 <= k < |b| && !(offset <= k < offset + len) ==>
      ScratchAfterSort(b, s, offset, len, threshold)[k] == b[k]
  {
    if len > threshold {
      SpliceAt(b, offset, Sort(s[offset..offset + len]));
    }
  }

  /**
   * One non-leaf step of the halving sort over the len elements at offset1,
   * split into runs of len1 and len2 elements: after sorting the first run,
   * then the second, then merging the two at offset1, the array holds s with
   * the segment sorted, and the buffer is what a direct sort of the segment
   * would leave in it.
   */
  lemma HalvingStep(s: seq<int>, b: seq<int>, offset1: int, len1: int, offset2: int, len2: int, len: int, threshold: int)
    requires 0 <= offset1 && 0 <= len1 && offset2 == offset1 + len1 && 0 <= len2 && len == len1 + len2
    requires offset1 + len <= |s| <= |b|
    requires len > threshold
    ensures MergeRange(SortSegment(SortSegment(s, offset1, len1), offset2, len2), offset1, len1, offset2, len2)
            == SortSegment(s, offset1, len)
    ensures Splice(ScratchAfterSort(ScratchAfterSort(b, s, offset1, len1, threshold),
                                    SortSegment(s, offset1, len1), offset2, len2, threshold),
                   offset1, SortSegment(s, offset1, len)[offset1..offset1 + len1 + len2])
            == ScratchAfterSort(b, s, offset1, len, threshold)
  {
    var hi := offset1 + len;
    SortSegmentIsRange(s, offset1, len1, offset2);
    SortSegmentIsRange(SortRange(s, offset1, offset2), offset2, len2, hi);
    SortRunsThenMerge(s, offset1, len1, offset2, len2, hi);
    SortSegmentIsRange(s, offset1, len, hi);
    HalvingScratch(s, b, offset1, len1, offset2, len2, len, threshold);
  }

  /** The buffer half of HalvingStep: the final merge overwrites whatever the halves left in the segment. */
  lemma HalvingScratch(s: seq<int>, b: seq<int>, offset1: int, len1: int, offset2: int, len2: int, len: int, threshold: int)
    requires 0 <= offset1 && 0 <= len1 && offset2 == offset1 + len1 && 0 <= len2 && len == len1 + len2
    requires offset1 + len <= |s| <= |b|
    requires len > threshold
    ensures Splice(ScratchAfterSort(ScratchAfterSort(b, s, offset1, len1, threshold),
                                    SortSegment(s, offset1, len1), offset2, len2, threshold),
                   offset1, SortSegment(s, offset1, len)[offset1..offset1 + len1 + len2])
            == ScratchAfterSort(b, s, offset1, len, threshold)
  {
    var m := Sort(s[offset1..offset1 + len]);
    SpliceSlices(s, offset1, m);
    var b1 := ScratchAfterSort(b, s, offset1, len1, threshold);
    var b2 := ScratchAfterSort(b1, SortSegment(s, offset1, len1), offset2, len2, threshold);
    ScratchOutside(b, s, offset1, len1, threshold);
    ScratchOutside(b1, SortSegment(s, offset1, len1), offset2, len2, threshold);
    SpliceOver(b, b2, offset1, m);
  }
}
