/**
 * The two building blocks every prototype uses on an int[] and its scratch
 * buffer: the leaf sort of one range (java.util.Arrays.sort(arr, from, to))
 * and the two-pointer merge into the buffer followed by System.arraycopy back.
 */
module Kernels {
  import opened SortSpec

  /**
   * Stand-in for Arrays.sort(a, lo, hi): an in-place insertion sort. It leaves
   * a[lo..hi) sorted and a permutation of its old contents and touches nothing
   * else, which is the library call's contract.
   */
  method LeafSort(a: array<int>, lo: int, hi: int)
    requires 0 <= lo <= hi <= a.Length
    modifies a
    ensures a[..] == SortRange(old(a[..]), lo, hi)
  {
    var i := lo;
    while i < hi
      invariant lo <= i <= hi
      invariant forall p, q :: lo <= p < q < i ==> a[p] <= a[q]
      invariant multiset(a[..]) == multiset(old(a[..]))
      invariant forall k :: 0 <= k < a.Length && !(lo <= k < hi) ==> a[k] == old(a[k])
    {
      InsertLast(a, lo, i);
      i := i + 1;
    }
    LeafSortResult(old(a[..]), a[..], lo, hi);
  }

  /**
   * One pass of the insertion sort: a[i] is swapped leftwards until it meets
   * an element no larger than itself, so that a[lo..i] becomes sorted.
   */
  method InsertLast(a: array<int>, lo: int, i: int)
    requires 0 <= lo <= i < a.Length
    requires forall p, q :: lo <= p < q < i ==> a[p] <= a[q]
    modifies a
    ensures forall p, q :: lo <= p < q <= i ==> a[p] <= a[q]
    ensures multiset(a[..]) == multiset(old(a[..]))
    ensures forall k :: 0 <= k < a.Length && !(lo <= k <= i) ==> a[k] == old(a[k])
  {
    var j := i;
    while j > lo && a[j - 1] > a[j]
      invariant lo <= j <= i
      invariant forall p, q :: lo <= p < q <= i && p != j && q != j ==> a[p] <= a[q]
      invariant forall q :: j < q <= i ==> a[j] < a[q]
      invariant multiset(a[..]) == multiset(old(a[..]))
      invariant forall k :: 0 <= k < a.Length && !(lo <= k <= i) ==> a[k] == old(a[k])
    {
      Swap(a, j - 1, j);
      j := j - 1;
    }
  }

  /** Exchanges a[p] and a[q]; the array keeps its multiset of values. */
  method Swap(a: array<int>, p: int, q: int)
    requires 0 <= p < q < a.Length
    modifies a
    ensures a[..] == old(a[..])[p := old(a[q])][q := old(a[p])]
    ensures multiset(a[..]) == multiset(old(a[..]))
  {
    a[p], a[q] := a[q], a[p];
  }

  /**
   * A snapshot that is sorted on [lo, hi), a permutation of the original and
   * equal to it outside [lo, hi) is exactly SortRange of the original.
   */
  lemma LeafSortResult(s: seq<int>, t: seq<int>, lo: int, hi: int)
    requires 0 <= lo <= hi <= |s| == |t|
    requires forall p, q :: lo <= p < q < hi ==> t[p] <= t[q]
    requires multiset(t) == multiset(s)
    requires forall k :: 0 <= k < |s| && !(lo <= k < hi) ==> t[k] == s[k]
    ensures t == SortRange(s, lo, hi)
  {
    assert t[lo..hi] == Sort(s[lo..hi]) by {
      assert Sorted(t[lo..hi]) by {
        forall p, q | 0 <= p < q < hi - lo ensures t[lo..hi][p] <= t[lo..hi][q] {
          assert t[lo..hi][p] == t[lo + p] && t[lo..hi][q] == t[lo + q];
        }
      }
      assert t[..lo] == s[..lo];
      assert t[hi..] == s[hi..];
      SameValuesInside(s, t, lo, hi);
      SortCorrect(s[lo..hi]);
      SortedUnique(t[lo..hi], Sort(s[lo..hi]));
    }
    SpliceOwnRange(s, t, lo, hi);
  }

  /** A snapshot that agrees with s outside [lo, hi) is s with its own [lo, hi) spliced in. */
  lemma SpliceOwnRange(s: seq<int>, t: seq<int>, lo: int, hi: int)
    requires 0 <= lo <= hi <= |s| == |t|
    requires forall k :: 0 <= k < |s| && !(lo <= k < hi) ==> t[k] == s[k]
    ensures t == Splice(s, lo, t[lo..hi])
  {
    SpliceAt(s, lo, t[lo..hi]);
  }

  /**
   * Two permutations of each other that agree outside [lo, hi) hold the same
   * values inside it.
   */
  lemma SameValuesInside(s: seq<int>, t: seq<int>, lo: int, hi: int)
    requires 0 <= lo <= hi <= |s| == |t|
    requires multiset(t) == multiset(s)
    requires t[..lo] == s[..lo] && t[hi..] == s[hi..]
    ensures multiset(t[lo..hi]) == multiset(s[lo..hi])
  {
    var outside := multiset(s[..lo]) + multiset(s[hi..]);
    ThreeParts(s, lo, hi);
    ThreeParts(t, lo, hi);
    MultisetCancel(multiset(t[lo..hi]), multiset(s[lo..hi]), outside);
  }

  /** Equal sums with a common part have equal remaining parts. */
  lemma MultisetCancel(a: multiset<int>, b: multiset<int>, c: multiset<int>)
    requires a + c == b + c
    ensures a == b
  {
    forall v ensures a[v] == b[v] {
      assert (a + c)[v] == a[v] + c[v];
    }
  }

  /** A sequence's values are those of its three parts around [lo, hi). */
  lemma ThreeParts(s: seq<int>, lo: int, hi: int)
    requires 0 <= lo <= hi <= |s|
    ensures multiset(s) == multiset(s[lo..hi]) + (multiset(s[..lo]) + multiset(s[hi..]))
  {
    assert s == s[..lo] + s[lo..hi] + s[hi..];
  }

  /**
   * doMerge / Merger.call: merges arr[offset1..offset1+len1) and
   * arr[offset2..offset2+len2) into buffer[offset1..offset1+len1+len2) with
   * cursors i, j, k, then copies that buffer range back into arr. Nothing
   * outside [offset1, offset1+len1+len2) changes in either array.
   */
  method MergeRuns(arr: array<int>, buffer: array<int>, offset1: int, len1: int, offset2: int, len2: int)
    requires arr != buffer
    requires 0 <= offset1 && 0 <= len1 && 0 <= offset2 && 0 <= len2
    requires offset1 + len1 + len2 <= arr.Length && offset2 + len2 <= arr.Length
    requires offset1 + len1 + len2 <= buffer.Length
    modifies arr, buffer
    ensures arr[..] == MergeRange(old(arr[..]), offset1, len1, offset2, len2)
    ensures buffer[..] == Splice(old(buffer[..]), offset1, arr[offset1..offset1 + len1 + len2])
  {
    MergeIntoBuffer(arr, buffer, offset1, len1, offset2, len2);
    ArrayCopy(buffer, offset1, arr, offset1, len1 + len2);
    SpliceSlices(old(arr[..]), offset1, Merge(old(arr[offset1..offset1 + len1]), old(arr[offset2..offset2 + len2])));
  }

  /**
   * The cursor loop of doMerge: buffer[offset1..offset1+len1+len2) receives
   * the merge of the two runs of arr; arr is only read.
   */
  method MergeIntoBuffer(arr: array<int>, buffer: array<int>, offset1: int, len1: int, offset2: int, len2: int)
    requires arr != buffer
    requires 0 <= offset1 && 0 <= len1 && 0 <= offset2 && 0 <= len2
    requires offset1 + len1 + len2 <= arr.Length && offset2 + len2 <= arr.Length
    requires offset1 + len1 + len2 <= buffer.Length
    modifies buffer
    ensures buffer[..] == Splice(old(buffer[..]), offset1, Merge(arr[offset1..offset1 + len1], arr[offset2..offset2 + len2]))
  {
    ghost var x := arr[offset1..offset1 + len1];
    ghost var y := arr[offset2..offset2 + len2];
    ghost var merged := Merge(x, y);
    var i, j, k := 0, 0, 0;
    assert x[0..] == x && y[0..] == y && merged[0..] == merged;
    assert buffer[..] == Splice(old(buffer[..]), offset1, merged[..0]);
    while k < len1 + len2
      invariant 0 <= i <= len1 && 0 <= j <= len2 && k == i + j
      invariant Merge(x[i..], y[j..]) == merged[k..]
      invariant buffer[..] == Splice(old(buffer[..]), offset1, merged[..k])
    {
      // Every branch stores one element at buffer[offset1 + k] and advances k.
      var next;
      var k1 := k + 1;
      if i < len1 && j < len2 {
        if arr[offset1 + i] < arr[offset2 + j] {
          var i1 := i + 1;
          TakeFirst(x, y, i, i1, j, merged, k, k1);
          next, i := arr[offset1 + i], i1;
        } else {
          var j1 := j + 1;
          TakeSecond(x, y, i, j, j1, merged, k, k1);
          next, j := arr[offset2 + j], j1;
        }
      } else if i < len1 {
        var i1 := i + 1;
        TakeFirst(x, y, i, i1, j, merged, k, k1);
        next, i := arr[offset1 + i], i1;
      } else {
        var j1 := j + 1;
        TakeSecond(x, y, i, j, j1, merged, k, k1);
        next, j := arr[offset2 + j], j1;
      }
      var p := offset1 + k;
      SpliceExtend(old(buffer[..]), offset1, merged, k, k1, p);
      Store(buffer, p, next);
      k := k1;
    }
    assert merged[..k] == merged;
  }

  /** buffer[p] := v, as one step of the snapshot. */
  method Store(buffer: array<int>, p: int, v: int)
    requires 0 <= p < buffer.Length
    modifies buffer
    ensures buffer[..] == old(buffer[..])[p := v]
  {
    buffer[p] := v;
  }

  /** Storing the next element of m just past a spliced prefix of m extends the prefix. */
  lemma SpliceExtend(s: seq<int>, lo: int, m: seq<int>, k: int, k1: int, p: int)
    requires 0 <= lo && 0 <= k < |m| && lo + |m| <= |s| && k1 == k + 1 && p == lo + k
    ensures Splice(s, lo, m[..k])[p := m[k]] == Splice(s, lo, m[..k1])
  {
    var u := Splice(s, lo, m[..k])[p := m[k]];
    var v := Splice(s, lo, m[..k1]);
    SpliceAt(s, lo, m[..k]);
    SpliceAt(s, lo, m[..k1]);
    assert |u| == |v|;
    forall p | 0 <= p < |u| ensures u[p] == v[p] {
    }
  }

  /**
   * System.arraycopy(src, srcPos, dest, destPos, length) between two distinct
   * arrays: dest[destPos..destPos+length) becomes src[srcPos..srcPos+length).
   */
  method ArrayCopy(src: array<int>, srcPos: int, dest: array<int>, destPos: int, length: int)
    requires src != dest
    requires 0 <= srcPos && 0 <= destPos && 0 <= length
    requires srcPos + length <= src.Length && destPos + length <= dest.Length
    modifies dest
    ensures dest[..] == Splice(old(dest[..]), destPos, src[srcPos..srcPos + length])
  {
    forall p | destPos <= p < destPos + length {
      dest[p] := src[srcPos + p - destPos];
    }
    SpliceAt(old(dest[..]), destPos, src[srcPos..srcPos + length]);
  }

  /**
   * A step of the merge loop that takes the head of the first run: it is the
   * next merged element, and the rest of the merge continues after it.
   */
  lemma TakeFirst(x: seq<int>, y: seq<int>, i: int, i1: int, j: int, merged: seq<int>, k: int, k1: int)
    requires 0 <= i < |x| && 0 <= j <= |y| && 0 <= k < |merged| && i1 == i + 1 && k1 == k + 1
    requires j == |y| || x[i] < y[j]
    requires Merge(x[i..], y[j..]) == merged[k..]
    ensures merged[k] == x[i] && Merge(x[i1..], y[j..]) == merged[k1..]
  {
    assert x[i..] == [x[i]] + x[i1..];
    assert merged[k..] == [merged[k]] + merged[k1..];
  }

  /**
   * A step of the merge loop that takes the head of the second run (also on a
   * tie): it is the next merged element, and the merge continues after it.
   */
  lemma TakeSecond(x: seq<int>, y: seq<int>, i: int, j: int, j1: int, merged: seq<int>, k: int, k1: int)
    requires 0 <= i <= |x| && 0 <= j < |y| && 0 <= k < |merged| && j1 == j + 1 && k1 == k + 1
    requires i == |x| || !(x[i] < y[j])
    requires Merge(x[i..], y[j..]) == merged[k..]
    ensures merged[k] == y[j] && Merge(x[i..], y[j1..]) == merged[k1..]
  {
    assert y[j..] == [y[j]] + y[j1..];
    assert merged[k..] == [merged[k]] + merged[k1..];
  }
}
