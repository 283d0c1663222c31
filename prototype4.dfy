/**
 * Prototype4: no recursion. An array of at least MINIMUM_SIZE elements is cut
 * into four contiguous quarters; four Sorter tasks sort them, two Merger
 * tasks merge quarters one and two and quarters three and four, and a last
 * Merger on the calling thread merges the two halves. The thread pool runs
 * each batch of tasks concurrently; the model runs them one after the other
 * in list order, which gives the same array because the tasks of one batch
 * touch disjoint segments (SortSpec.SortRangeCommute for the sorts,
 * SortSpec.MergeRangeCommute for the merges).
 */
module Prototype4 {
  import opened SortSpec
  import opened Partition
  import opened Kernels
  import opened Halving

  /** MINIMUM_SIZE: shorter arrays are sorted directly. */
  const MinimumSize: int := 1000

  class Prototype4 {
    /** Only switches diagnostic printing on and off. */
    var debug: bool

    constructor ()
      ensures !debug
    {
      debug := false;
    }

    method SetDebug(debug: bool)
      modifies this
      ensures this.debug == debug
    {
      this.debug := debug;
    }

    /**
     * psort: an array shorter than MinimumSize is sorted by the library sort;
     * a longer one goes through the four sorts and three merges. Either way
     * the array ends equal to its sorted copy.
     */
    method Psort(arr: array<int>)
      modifies arr
      ensures arr[..] == Sort(old(arr[..]))
    {
      if arr.Length < MinimumSize {
        LeafSort(arr, 0, arr.Length);
        SortRangeWhole(old(arr[..]));
        return;
      }
      var buffer := new int[arr.Length](_ => 0);
      var q := QuarterSplit(arr.Length);
      var offset1, len1, offset2, len2 := q.offset1, q.len1, q.offset2, q.len2;
      var offset3, len3, offset4, len4 := q.offset3, q.len3, q.offset4, q.len4;

      var sorter1 := new Sorter(arr, offset1, len1, debug);
      var sorter2 := new Sorter(arr, offset2, len2, debug);
      var sorter3 := new Sorter(arr, offset3, len3, debug);
      var sorter4 := new Sorter(arr, offset4, len4, debug);
      ghost var s0 := arr[..];
      assert s0 == old(arr[..]);
      sorter1.Call();
      ghost var s1 := arr[..];
      sorter2.Call();
      ghost var s2 := arr[..];
      sorter3.Call();
      ghost var s3 := arr[..];
      sorter4.Call();
      ghost var s4 := arr[..];

      var merger1 := new Merger(arr, buffer, debug, offset1, len1, offset2, len2);
      var merger2 := new Merger(arr, buffer, debug, offset3, len3, offset4, len4);
      assert arr[..] == s4;
      merger1.Call();
      ghost var s5 := arr[..];
      merger2.Call();
      ghost var s6 := arr[..];

      var len12, len34 := len1 + len2, len3 + len4;
      var merger3 := new Merger(arr, buffer, debug, offset1, len12, offset3, len34);
      assert arr[..] == s6;
      merger3.Call();
      QuarterSchedule(s0, s1, s2, s3, s4, s5, s6, arr[..],
                      offset1, len1, offset2, len2, offset3, len3, offset4, len4, len12, len34);
    }
  }

  /** The Callable that sorts arr[offset..offset+len) with the library sort. */
  class Sorter {
    /** Only switches diagnostic printing on and off. */
    const debug: bool
    const arr: array<int>
    const offset: int
    const len: int

    constructor (arr: array<int>, offset: int, len: int, debug: bool)
      ensures this.arr == arr && this.offset == offset && this.len == len && this.debug == debug
    {
      this.arr := arr;
      this.offset := offset;
      this.len := len;
      this.debug := debug;
    }

    /** call: the segment ends sorted and nothing else in arr changes. */
    method Call()
      requires 0 <= offset && 0 <= len && offset + len <= arr.Length
      modifies arr
      ensures arr[..] == SortSegment(old(arr[..]), offset, len)
    {
      LeafSort(arr, offset, offset + len);
    }
  }

  /** The Callable that merges the run at offset1 with the run at offset2 through buffer. */
  class Merger {
    const buffer: array<int>
    /** Only switches diagnostic printing on and off. */
    const debug: bool
    const arr: array<int>
    const offset1: int
    const len1: int
    const offset2: int
    const len2: int

    constructor (arr: array<int>, buffer: array<int>, debug: bool, offset1: int, len1: int, offset2: int, len2: int)
      ensures this.arr == arr && this.buffer == buffer && this.debug == debug
      ensures this.offset1 == offset1 && this.len1 == len1 && this.offset2 == offset2 && this.len2 == len2
    {
      this.arr := arr;
      this.buffer := buffer;
      this.offset1 := offset1;
      this.len1 := len1;
      this.offset2 := offset2;
      this.len2 := len2;
      this.debug := debug;
    }

    /**
     * call: the same right-biased merge loop and copy-back as doMerge of the
     * other prototypes; the merged runs land at offset1.
     */
    method Call()
      requires arr != buffer
      requires 0 <= offset1 && 0 <= len1 && 0 <= offset2 && 0 <= len2
      requires offset1 + len1 + len2 <= arr.Length && offset2 + len2 <= arr.Length
      requires offset1 + len1 + len2 <= buffer.Length
      modifies arr, buffer
      ensures arr[..] == MergeRange(old(arr[..]), offset1, len1, offset2, len2)
      ensures buffer[..] == Splice(old(buffer[..]), offset1, arr[offset1..offset1 + len1 + len2])
    {
      MergeRuns(arr, buffer, offset1, len1, offset2, len2);
    }
  }

  /**
   * The schedule of psort over four contiguous segments covering s0: sort
   * each segment (s1 to s4), merge segments one and two (s5) and three and
   * four (s6), then merge the two halves (s7). The result is s0 sorted.
   */
  lemma QuarterSchedule(s0: seq<int>, s1: seq<int>, s2: seq<int>, s3: seq<int>, s4: seq<int>,
                        s5: seq<int>, s6: seq<int>, s7: seq<int>,
                        offset1: int, len1: int, offset2: int, len2: int,
                        offset3: int, len3: int, offset4: int, len4: int, len12: int, len34: int)
    requires offset1 == 0 && 0 <= len1 && 0 <= len2 && 0 <= len3 && 0 <= len4
    requires offset2 == offset1 + len1 && offset3 == offset2 + len2 && offset4 == offset3 + len3
    requires offset4 + len4 == |s0| && len12 == len1 + len2 && len34 == len3 + len4
    requires s1 == SortSegment(s0, offset1, len1) && s2 == SortSegment(s1, offset2, len2)
    requires s3 == SortSegment(s2, offset3, len3) && s4 == SortSegment(s3, offset4, len4)
    requires s5 == MergeRange(s4, offset1, len1, offset2, len2)
    requires s6 == MergeRange(s5, offset3, len3, offset4, len4)
    requires s7 == MergeRange(s6, offset1, len12, offset3, len34)
    ensures s7 == Sort(s0)
  {
    var n := |s0|;
    SortSegmentIsRange(s0, offset1, len1, offset2);
    SortSegmentIsRange(s1, offset2, len2, offset3);
    SortSegmentIsRange(s2, offset3, len3, offset4);
    SortSegmentIsRange(s3, offset4, len4, n);
    FourSorts(s0, offset1, offset2, offset3, offset4, n);
    var x := SortRange(SortRange(s0, offset3, offset4), offset4, n);
    SortRunsThenMerge(x, offset1, len1, offset2, len2, offset3);
    Regroup(s0, offset1, offset3, offset4, n);
    var y := SortRange(s0, offset1, offset3);
    SortRunsThenMerge(y, offset3, len3, offset4, len4, n);
    SortRunsThenMerge(s0, offset1, len12, offset3, len34, n);
    SortRangeWhole(s0);
  }

  /**
   * Sorting the four segments in order leaves the same array as sorting the
   * last two first and then the first two.
   */
  lemma FourSorts(s: seq<int>, b0: int, b1: int, b2: int, b3: int, b4: int)
    requires 0 <= b0 <= b1 <= b2 <= b3 <= b4 <= |s|
    ensures SortRange(SortRange(SortRange(SortRange(s, b0, b1), b1, b2), b2, b3), b3, b4)
            == SortRange(SortRange(SortRange(SortRange(s, b2, b3), b3, b4), b0, b1), b1, b2)
  {
    var a := SortRange(s, b0, b1);
    SortRangeCommute(a, b1, b2, b2, b3);
    SortRangeCommute(s, b0, b1, b2, b3);
    var c := SortRange(s, b2, b3);
    var b := SortRange(c, b0, b1);
    SortRangeCommute(b, b1, b2, b3, b4);
    SortRangeCommute(c, b0, b1, b3, b4);
  }

  /**
   * Sorting the first half of an array whose third and fourth segments are
   * already sorted is the same as sorting the first half first.
   */
  lemma Regroup(s: seq<int>, b0: int, b2: int, b3: int, b4: int)
    requires 0 <= b0 <= b2 <= b3 <= b4 <= |s|
    ensures SortRange(SortRange(SortRange(s, b2, b3), b3, b4), b0, b2)
            == SortRange(SortRange(SortRange(s, b0, b2), b2, b3), b3, b4)
  {
    var d := SortRange(s, b2, b3);
    SortRangeCommute(d, b0, b2, b3, b4);
    SortRangeCommute(s, b0, b2, b2, b3);
  }
}
