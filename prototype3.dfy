/**
 * Prototype3: the recursive halving sort of Prototype2 with a settable
 * threshold (default 10000) and a buffer allocated by each psort and handed
 * to every Worker. As in Prototype2, the two child Workers run one after the
 * other.
 */
module Prototype3 {
  import opened SortSpec
  import opened Partition
  import opened Kernels
  import opened Halving

  /** DEFAULT_SEGMENT_MAX_SIZE. */
  const DefaultSegmentMaxSize: int := 10000

  class Prototype3 {
    /** Segments of at most this many elements are sorted directly. */
    var segmentMaxSize: int
    /** Only switches diagnostic printing on and off. */
    var debug: bool

    constructor ()
      ensures segmentMaxSize == DefaultSegmentMaxSize && !debug
    {
      segmentMaxSize := DefaultSegmentMaxSize;
      debug := false;
    }

    method SetDebug(debug: bool)
      modifies this
      ensures this.debug == debug && segmentMaxSize == old(segmentMaxSize)
    {
      this.debug := debug;
    }

    /** setSegmentSize: any int is stored; psort then needs it to be at least 1. */
    method SetSegmentSize(size: int)
      modifies this
      ensures segmentMaxSize == size && debug == old(debug)
    {
      segmentMaxSize := size;
    }

    /**
     * psort: a fresh zero-filled buffer of the array's length and one Worker
     * over the whole array. The array ends equal to its sorted copy.
     */
    method Psort(arr: array<int>)
      requires segmentMaxSize >= 1
      modifies arr
      ensures arr[..] == Sort(old(arr[..]))
    {
      var buffer := new int[arr.Length](_ => 0);
      var worker := new Worker(arr, 0, arr.Length, segmentMaxSize, buffer, debug);
      worker.Compute();
      SortRangeWhole(old(arr[..]));
    }
  }

  /** The RecursiveAction for arr[offset..offset+len), with its own copy of the threshold and the shared buffer. */
  class Worker {
    const segMaxSize: int
    const buffer: array<int>
    /** Only switches diagnostic printing on and off. */
    const debug: bool
    const arr: array<int>
    const offset: int
    const len: int

    constructor (arr: array<int>, offset: int, len: int, segMaxSize: int, buffer: array<int>, debug: bool)
      ensures this.arr == arr && this.offset == offset && this.len == len
      ensures this.segMaxSize == segMaxSize && this.buffer == buffer && this.debug == debug
    {
      this.arr := arr;
      this.offset := offset;
      this.len := len;
      this.segMaxSize := segMaxSize;
      this.buffer := buffer;
      this.debug := debug;
    }

    /**
     * compute: a segment of at most segMaxSize elements is sorted by the
     * library sort; a longer one is halved, both halves are computed by child
     * Workers, and the halves are merged. arr[offset..offset+len) ends sorted
     * and nothing else in arr changes.
     */
    method Compute()
      requires segMaxSize >= 1
      requires arr != buffer && arr.Length <= buffer.Length
      requires 0 <= offset && 0 <= len && offset + len <= arr.Length
      modifies arr, buffer
      ensures arr[..] == SortSegment(old(arr[..]), offset, len)
      ensures buffer[..] == ScratchAfterSort(old(buffer[..]), old(arr[..]), offset, len, segMaxSize)
      decreases len, 0
    {
      if len <= segMaxSize {
        LeafSort(arr, offset, offset + len);
      } else {
        var halves := Halve(len);
        var offset1, len1 := offset, halves.len1;
        var offset2, len2 := offset1 + len1, halves.len2;
        var left := new Worker(arr, offset1, len1, segMaxSize, buffer, debug);
        var right := new Worker(arr, offset2, len2, segMaxSize, buffer, debug);
        InvokeAll(left, right);
        MergeRuns(arr, buffer, offset1, len1, offset2, len2);
        HalvingStep(old(arr[..]), old(buffer[..]), offset1, len1, offset2, len2, len, segMaxSize);
      }
    }
  }

  /**
   * ForkJoinTask.invokeAll of two Workers over the same array, buffer and
   * threshold: the model runs first, then second. Each sorts its own
   * segment, so the array ends with both segments sorted.
   */
  method InvokeAll(first: Worker, second: Worker)
    requires first.arr == second.arr && first.buffer == second.buffer && first.segMaxSize == second.segMaxSize
    requires first.segMaxSize >= 1
    requires first.arr != first.buffer && first.arr.Length <= first.buffer.Length
    requires 0 <= first.offset && 0 <= first.len && first.offset + first.len <= first.arr.Length
    requires 0 <= second.offset && 0 <= second.len && second.offset + second.len <= first.arr.Length
    modifies first.arr, first.buffer
    ensures first.arr[..] == SortSegment(SortSegment(old(first.arr[..]), first.offset, first.len), second.offset, second.len)
    ensures first.buffer[..]
            == ScratchAfterSort(ScratchAfterSort(old(first.buffer[..]), old(first.arr[..]), first.offset, first.len, first.segMaxSize),
                                SortSegment(old(first.arr[..]), first.offset, first.len),
                                second.offset, second.len, first.segMaxSize)
    decreases if first.len < second.len then second.len else first.len, 1
  {
    first.Compute();
    second.Compute();
  }
}
