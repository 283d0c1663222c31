/**
 * Prototype2: the recursive halving sort with the two halves forked as
 * fork/join Workers. The model runs the two child Workers one after the
 * other, left then right; SortSpec.SortRangeCommute shows the other order
 * gives the same array. The buffer is a field of the sorter that every
 * Worker of one psort shares.
 */
module Prototype2 {
  import opened SortSpec
  import opened Partition
  import opened Kernels
  import opened Halving

  /** DEFAULT_SEGMENT_MAX_SIZE. */
  const DefaultSegmentMaxSize: int := 10

  class Prototype2 {
    /** Segments of at most this many elements are sorted directly. */
    var segmentMaxSize: int
    /** The scratch buffer; Java leaves it null until the first psort. */
    var buffer: array<int>

    constructor ()
      ensures segmentMaxSize == DefaultSegmentMaxSize && buffer.Length == 0
    {
      segmentMaxSize := DefaultSegmentMaxSize;
      buffer := new int[0];
    }

    /** The constructor that takes the threshold; any int is accepted here. */
    constructor WithSegmentMaxSize(segmentMaxSize: int)
      ensures this.segmentMaxSize == segmentMaxSize && buffer.Length == 0
    {
      this.segmentMaxSize := segmentMaxSize;
      buffer := new int[0];
    }

    /**
     * psort: a fresh zero-filled buffer of the array's length, then one
     * Worker over the whole array. The array ends equal to its sorted copy.
     */
    method Psort(arr: array<int>)
      requires segmentMaxSize >= 1
      modifies this`buffer, arr
      ensures arr[..] == Sort(old(arr[..]))
      ensures fresh(buffer) && buffer.Length == arr.Length
      ensures buffer[..] == ScratchAfterSort(seq(arr.Length, _ => 0), old(arr[..]), 0, arr.Length, segmentMaxSize)
    {
      buffer := new int[arr.Length](_ => 0);
      assert buffer[..] == seq(arr.Length, _ => 0);
      var worker := new Worker(this, arr, 0, arr.Length);
      worker.Compute();
      SortRangeWhole(old(arr[..]));
    }
  }

  /** The RecursiveAction for arr[offset..offset+len); it reads its sorter's threshold and buffer. */
  class Worker {
    const owner: Prototype2
    const arr: array<int>
    const offset: int
    const len: int

    constructor (owner: Prototype2, arr: array<int>, offset: int, len: int)
      ensures this.owner == owner && this.arr == arr && this.offset == offset && this.len == len
    {
      this.owner := owner;
      this.arr := arr;
      this.offset := offset;
      this.len := len;
    }

    /**
     * compute: a segment of at most segmentMaxSize elements is sorted by the
     * library sort; a longer one is halved, both halves are computed by child
     * Workers, and the halves are merged. arr[offset..offset+len) ends sorted
     * and nothing else in arr changes.
     */
    method Compute()
      requires owner.segmentMaxSize >= 1
      requires arr != owner.buffer && arr.Length <= owner.buffer.Length
      requires 0 <= offset && 0 <= len && offset + len <= arr.Length
      modifies arr, owner.buffer
      ensures arr[..] == SortSegment(old(arr[..]), offset, len)
      ensures owner.buffer[..] == ScratchAfterSort(old(owner.buffer[..]), old(arr[..]), offset, len, owner.segmentMaxSize)
      decreases len, 0
    {
      if len <= owner.segmentMaxSize {
        LeafSort(arr, offset, offset + len);
      } else {
        var halves := Halve(len);
        var offset1, len1 := offset, halves.len1;
        var offset2, len2 := offset1 + len1, halves.len2;
        var left := new Worker(owner, arr, offset1, len1);
        var right := new Worker(owner, arr, offset2, len2);
        InvokeAll(left, right);
        MergeRuns(arr, owner.buffer, offset1, len1, offset2, len2);
        HalvingStep(old(arr[..]), old(owner.buffer[..]), offset1, len1, offset2, len2, len, owner.segmentMaxSize);
      }
    }
  }

  /**
   * ForkJoinTask.invokeAll of two Workers over the same array and sorter:
   * the model runs first, then second. Each sorts its own segment, so the
   * array ends with both segments sorted.
   */
  method InvokeAll(first: Worker, second: Worker)
    requires first.owner == second.owner && first.arr == second.arr
    requires first.owner.segmentMaxSize >= 1
    requires first.arr != first.owner.buffer && first.arr.Length <= first.owner.buffer.Length
    requires 0 <= first.offset && 0 <= first.len && first.offset + first.len <= first.arr.Length
    requires 0 <= second.offset && 0 <= second.len && second.offset + second.len <= first.arr.Length
    modifies first.arr, first.owner.buffer
    ensures first.arr[..] == SortSegment(SortSegment(old(first.arr[..]), first.offset, first.len), second.offset, second.len)
    ensures first.owner.buffer[..]
            == ScratchAfterSort(ScratchAfterSort(old(first.owner.buffer[..]), old(first.arr[..]), first.offset, first.len, first.owner.segmentMaxSize),
                                SortSegment(old(first.arr[..]), first.offset, first.len),
                                second.offset, second.len, first.owner.segmentMaxSize)
    decreases if first.len < second.len then second.len else first.len, 1
  {
    first.Compute();
    second.Compute();
  }
}
