/**
 * The segment arithmetic of the two splitting policies: recursive halving
 * (Prototype1, Prototype2, Prototype3) and fixed quartering (Prototype4).
 * Every quantity is an index or a length no larger than arr.length, so Java's
 * 32-bit int arithmetic cannot overflow here and plain int models it exactly;
 * all operands are non-negative, so Java's truncating / agrees with Dafny's.
 */
module Partition {

  /** The two children of a segment of length len: len1 = len / 2, len2 = len - len1. */
  datatype Halves = Halves(len1: nat, len2: nat)

  /**
   * The split of doSort / compute. The children are contiguous and cover the
   * parent, the first is never the longer one, and for len >= 2 both are
   * non-empty and strictly shorter than the parent, which is what makes the
   * recursion terminate once the threshold is at least 1.
   */
  function Halve(len: nat): (h: Halves)
    ensures h.len1 + h.len2 == len
    ensures h.len1 <= h.len2 <= h.len1 + 1
    ensures len >= 2 ==> 1 <= h.len1 && h.len2 < len
  {
    Halves(len / 2, len - len / 2)
  }

  /**
   * With a threshold below 1, a segment of length 1 is not a leaf and its
   * second child is again of length 1; with a threshold below 0, a segment of
   * length 0 is not a leaf either and both its children have length 0. Either
   * way the halving never reaches a leaf.
   */
  lemma HalveOneMakesNoProgress(threshold: int)
    requires threshold <= 0
    ensures 1 > threshold && Halve(1).len1 == 0 && Halve(1).len2 == 1
    ensures threshold < 0 ==> 0 > threshold && Halve(0).len1 == 0 && Halve(0).len2 == 0
  {
  }

  /** The four segments of Prototype4.psort, as offsets and lengths. */
  datatype Quarters = Quarters(
    offset1: nat, len1: nat,
    offset2: nat, len2: nat,
    offset3: nat, len3: nat,
    offset4: nat, len4: nat)

  /**
   * The quarter boundaries of Prototype4.psort: offset3 = n / 2,
   * offset2 = offset3 / 2, offset4 = offset3 + offset2. The four segments are
   * contiguous, start at 0 and end at n.
   */
  function QuarterSplit(n: nat): (q: Quarters)
    ensures q.offset1 == 0
    ensures q.offset1 + q.len1 == q.offset2
    ensures q.offset2 + q.len2 == q.offset3
    ensures q.offset3 + q.len3 == q.offset4
    ensures q.offset4 + q.len4 == n
    ensures q.len1 + q.len2 + q.len3 + q.len4 == n
  {
    var offset3 := n / 2;
    var offset2 := offset3 / 2;
    var offset4 := offset3 + offset2;
    Quarters(0, offset2, offset2, offset3 - offset2, offset3, offset4 - offset3, offset4, n - offset4)
  }

  /**
   * The sizes of the four segments: the first and third are equal, each is at
   * most its right neighbour, and none is empty once n >= 4 (so certainly for
   * the n >= 1000 that Prototype4 splits).
   */
  lemma QuarterSizes(n: nat)
    ensures QuarterSplit(n).len1 == QuarterSplit(n).len3
    ensures QuarterSplit(n).len1 <= QuarterSplit(n).len2
    ensures QuarterSplit(n).len3 <= QuarterSplit(n).len4
    ensures QuarterSplit(n).len4 <= QuarterSplit(n).len1 + 2
    ensures n >= 4 ==> QuarterSplit(n).len1 >= 1
  {
  }
}
