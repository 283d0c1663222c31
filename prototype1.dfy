/**
 * Prototype1: the sequential recursive halving sort. The threshold is the
 * public static SEGMENT_MAX_SIZE (10), held here as a field of the sorter;
 * the scratch buffer is a field that psort replaces on every call.
 */
module Prototype1 {
  import opened SortSpec
  import opened Partition
  import opened Kernels
  import opened Halving

  class Prototype1 {
    /** Segments of at most this many elements are sorted directly. */
    var segmentMaxSize: int
    /** The scratch buffer; Java leaves it null until the first psort. */
    var buffer: array<int>

    constructor ()
      ensures segmentMaxSize == 10 && buffer.Length == 0
    {
      segmentMaxSize := 10;
      buffer := new int[0];
    }

    /**
     * psort: a fresh zero-filled buffer of the array's length, then doSort of
     * the whole array. The array ends equal to its sorted copy.
     */
    method Psort(arr: array<int>)
      requires segmentMaxSize >= 1
      modifies this`buffer, arr
      ensures arr[..] == Sort(old(arr[..]))
      ensures fresh(buffer) && buffer.Length == arr.Length
      ensures buffer[..] == ScratchAfterSort(seq(arr.Length, _ => 0), old(arr[..]), 0, arr.Length, segmentMaxSize)
    {
      buffer := new int[arr.Length](_ => 0);
      assert buffer[..] == seq(arr.Length, _ => 0);
      DoSort(arr, 0, arr.Length);
      SortRangeWhole(old(arr[..]));
    }

    /**
     * segmentedSort: sorts the run at offset1, then the run at offset2, then
     * merges them at offset1. The runs need not be adjacent; the result is
     * stated for any runs that lie inside the array.
     */
    method SegmentedSort(arr: array<int>, offset1: int, len1: int, offset2: int, len2: int)
      requires segmentMaxSize >= 1
      requires arr != buffer && arr.Length <= buffer.Length
      requires 0 <= offset1 && 0 <= len1 && 0 <= offset2 && 0 <= len2
      requires offset1 + len1 + len2 <= arr.Length && offset2 + len2 <= arr.Length
      modifies arr, buffer
      ensures arr[..] == MergeRange(SortSegment(SortSegment(old(arr[..]), offset1, len1), offset2, len2),
                                    offset1, len1, offset2, len2)
      ensures buffer[..] == Splice(ScratchAfterSort(ScratchAfterSort(old(buffer[..]), old(arr[..]), offset1, len1, segmentMaxSize),
                                                    SortSegment(old(arr[..]), offset1, len1), offset2, len2, segmentMaxSize),
                                   offset1, arr[offset1..offset1 + len1 + len2])
      decreases if len1 < len2 then len2 else len1, 1
    {
      DoSort(arr, offset1, len1);
      DoSort(arr, offset2, len2);
      MergeRuns(arr, buffer, offset1, len1, offset2, len2);
    }

    /**
     * doSort: a segment of at most segmentMaxSize elements is sorted by the
     * library sort; a longer one is halved and handed to segmentedSort. Either
     * way arr[offset..offset+len) ends sorted and nothing else in arr changes.
     */
    method DoSort(arr: array<int>, offset: int, len: int)
      requires segmentMaxSize >= 1
      requires arr != buffer && arr.Length <= buffer.Length
      requires 0 <= offset && 0 <= len && offset + len <= arr.Length
      modifies arr, buffer
      ensures arr[..] == SortSegment(old(arr[..]), offset, len)
      ensures buffer[..] == ScratchAfterSort(old(buffer[..]), old(arr[..]), offset, len, segmentMaxSize)
      decreases len, 0
    {
      if len <= segmentMaxSize {
        LeafSort(arr, offset, offset + len);
      } else {
        var halves := Halve(len);
        var offset1, len1 := offset, halves.len1;
        var offset2, len2 := offset1 + len1, halves.len2;
        SegmentedSort(arr, offset1, len1, offset2, len2);
        HalvingStep(old(arr[..]), old(buffer[..]), offset1, len1, offset2, len2, len, segmentMaxSize);
      }
    }
  }
}
