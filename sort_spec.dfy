/**
 * The values every prototype computes, stated on sequences: what "sorted"
 * means, the reference sort that the prototypes must agree with, the
 * two-pointer merge with the tie-break the Java code uses, and the effect of
 * sorting or merging one index range of a whole array snapshot.
 */
module SortSpec {

  /** s is in non-descending order. */
  ghost predicate Sorted(s: seq<int>) {
    forall i, j :: 0 <= i < j < |s| ==> s[i] <= s[j]
  }

  /** Inserts x before the first element of s that is not smaller than x. */
  function Insert(x: int, s: seq<int>): (r: seq<int>)
    ensures |r| == |s| + 1
  {
    if s == [] then [x]
    else if x <= s[0] then [x] + s
    else [s[0]] + Insert(x, s[1..])
  }

  /** The head after an insertion is x or the old head. */
  lemma InsertHead(x: int, s: seq<int>)
    ensures Insert(x, s)[0] == x || (s != [] && Insert(x, s)[0] == s[0])
  {
  }

  /** An insertion adds exactly x to the values of s. */
  lemma {:induction false} InsertPermutation(x: int, s: seq<int>)
    ensures multiset(Insert(x, s)) == multiset(s) + multiset{x}
  {
    if s != [] && !(x <= s[0]) {
      assert s == [s[0]] + s[1..];
      InsertPermutation(x, s[1..]);
    }
  }

  /** Inserting into a sorted sequence keeps it sorted. */
  lemma {:induction false} InsertSorted(x: int, s: seq<int>)
    requires Sorted(s)
    ensures Sorted(Insert(x, s))
  {
    if s == [] {
    } else if x <= s[0] {
      var r := [x] + s;
      forall i, j | 0 <= i < j < |r| ensures r[i] <= r[j] {
        if i > 0 {
          assert r[i] == s[i - 1] && r[j] == s[j - 1];
        } else {
          assert r[j] == s[j - 1] && s[0] <= s[j - 1];
        }
      }
    } else {
      var rest := Insert(x, s[1..]);
      var r := [s[0]] + rest;
      assert Sorted(s[1..]) by {
        forall i, j | 0 <= i < j < |s| - 1 ensures s[1..][i] <= s[1..][j] {
          assert s[1..][i] == s[i + 1] && s[1..][j] == s[j + 1];
        }
      }
      InsertSorted(x, s[1..]);
      InsertHead(x, s[1..]);
      assert s[0] <= rest[0];
      forall i, j | 0 <= i < j < |r| ensures r[i] <= r[j] {
        if i > 0 {
          assert r[i] == rest[i - 1] && r[j] == rest[j - 1];
        } else {
          assert r[j] == rest[j - 1] && rest[0] <= rest[j - 1];
        }
      }
    }
  }

  /**
   * The reference sort (an insertion sort). SortCorrect and SortedUnique make
   * it the only sorted permutation of s, so it is what java.util.Arrays.sort
   * yields too.
   */
  function Sort(s: seq<int>): (r: seq<int>)
    ensures |r| == |s|
  {
    if s == [] then [] else Insert(s[0], Sort(s[1..]))
  }

  /** The reference sort returns a sorted permutation of its input. */
  lemma {:induction false} SortCorrect(s: seq<int>)
    ensures Sorted(Sort(s))
    ensures multiset(Sort(s)) == multiset(s)
  {
    if s != [] {
      assert s == [s[0]] + s[1..];
      SortCorrect(s[1..]);
      InsertSorted(s[0], Sort(s[1..]));
      InsertPermutation(s[0], Sort(s[1..]));
    }
  }

  /** The head of a sorted sequence is at most any value it holds. */
  lemma SortedHeadIsLeast(a: seq<int>, v: int)
    requires Sorted(a) && v in multiset(a)
    ensures a != [] && a[0] <= v
  {
    assert v in a;
  }

  /** Dropping the head of a sorted sequence leaves it sorted. */
  lemma SortedTail(a: seq<int>)
    requires Sorted(a) && a != []
    ensures Sorted(a[1..])
  {
    forall i, j | 0 <= i < j < |a| - 1 ensures a[1..][i] <= a[1..][j] {
      assert a[1..][i] == a[i + 1] && a[1..][j] == a[j + 1];
    }
  }

  /** Two sequences with equal heads and equal multisets have tails with equal multisets. */
  lemma MultisetTail(a: seq<int>, b: seq<int>)
    requires a != [] && b != [] && a[0] == b[0] && multiset(a) == multiset(b)
    ensures multiset(a[1..]) == multiset(b[1..])
  {
    assert a == [a[0]] + a[1..] && b == [b[0]] + b[1..];
    assert multiset(a[1..]) == multiset(a) - multiset{a[0]};
    assert multiset(b[1..]) == multiset(b) - multiset{b[0]};
  }

  /** Two sorted sequences holding the same multiset of values are equal. */
  lemma {:induction false} SortedUnique(a: seq<int>, b: seq<int>)
    requires Sorted(a) && Sorted(b)
    requires multiset(a) == multiset(b)
    ensures a == b
  {
    assert |a| == |multiset(a)| == |multiset(b)| == |b|;
    if a != [] {
      SortedHeadIsLeast(b, a[0]);
      SortedHeadIsLeast(a, b[0]);
      MultisetTail(a, b);
      SortedTail(a);
      SortedTail(b);
      SortedUnique(a[1..], b[1..]);
      assert a == [a[0]] + a[1..] && b == [b[0]] + b[1..];
    }
  }

  /** A sequence that is already sorted is its own sort. */
  lemma SortedIsFixpoint(s: seq<int>)
    requires Sorted(s)
    ensures Sort(s) == s
  {
    SortCorrect(s);
    SortedUnique(Sort(s), s);
  }

  /** Sorting twice gives the same sequence as sorting once. */
  lemma SortIdempotent(s: seq<int>)
    ensures Sort(Sort(s)) == Sort(s)
  {
    SortCorrect(s);
    SortedIsFixpoint(Sort(s));
  }

  /**
   * The two-pointer merge of doMerge. While both runs have elements left, the
   * head of x is taken only when it is strictly less than the head of y;
   * otherwise (ties included) the head of y is taken. When one run is
   * exhausted the other is drained.
   */
  function Merge(x: seq<int>, y: seq<int>): (r: seq<int>)
    ensures |r| == |x| + |y|
    decreases |x| + |y|
  {
    if x == [] then y
    else if y == [] then x
    else if x[0] < y[0] then [x[0]] + Merge(x[1..], y)
    else [y[0]] + Merge(x, y[1..])
  }

  /** The merge is a permutation of its two runs together. */
  lemma {:induction false} MergePermutation(x: seq<int>, y: seq<int>)
    ensures multiset(Merge(x, y)) == multiset(x) + multiset(y)
    decreases |x| + |y|
  {
    if x != [] && y != [] {
      if x[0] < y[0] {
        MergePermutation(x[1..], y);
        assert Merge(x, y) == [x[0]] + Merge(x[1..], y);
        assert x == [x[0]] + x[1..];
      } else {
        MergePermutation(x, y[1..]);
        assert Merge(x, y) == [y[0]] + Merge(x, y[1..]);
        assert y == [y[0]] + y[1..];
      }
    }
  }

  /** The first merged element is the head of one of the two runs. */
  lemma MergeHead(x: seq<int>, y: seq<int>)
    requires x != [] || y != []
    ensures (x != [] && Merge(x, y)[0] == x[0]) || (y != [] && Merge(x, y)[0] == y[0])
  {
  }

  /** Merging two sorted runs gives a sorted run. */
  lemma {:induction false} MergeSorted(x: seq<int>, y: seq<int>)
    requires Sorted(x) && Sorted(y)
    ensures Sorted(Merge(x, y))
    decreases |x| + |y|
  {
    if x != [] && y != [] {
      if x[0] < y[0] {
        var rest := Merge(x[1..], y);
        MergeSorted(x[1..], y);
        if rest != [] {
          MergeHead(x[1..], y);
        }
        assert forall k :: 0 <= k < |rest| ==> x[0] <= rest[0] <= rest[k];
      } else {
        var rest := Merge(x, y[1..]);
        MergeSorted(x, y[1..]);
        MergeHead(x, y[1..]);
        assert forall k :: 0 <= k < |rest| ==> y[0] <= rest[0] <= rest[k];
      }
    }
  }

  /**
   * On equal heads the element of the SECOND run is emitted first and the
   * first run keeps its head: the merge is right-biased, not left-biased.
   */
  lemma MergeTieTakesSecond(x: seq<int>, y: seq<int>)
    requires x != [] && y != [] && y[0] <= x[0]
    ensures Merge(x, y) == [y[0]] + Merge(x, y[1..])
  {
  }

  /** Merging the sorts of two pieces sorts their concatenation. */
  lemma MergeOfSorts(x: seq<int>, y: seq<int>)
    ensures Merge(Sort(x), Sort(y)) == Sort(x + y)
  {
    SortCorrect(x);
    SortCorrect(y);
    SortCorrect(x + y);
    MergeSorted(Sort(x), Sort(y));
    MergePermutation(Sort(x), Sort(y));
    SortedUnique(Merge(Sort(x), Sort(y)), Sort(x + y));
  }

  /** s with the |m| elements starting at lo replaced by m. */
  function Splice(s: seq<int>, lo: int, m: seq<int>): (r: seq<int>)
    requires 0 <= lo && lo + |m| <= |s|
    ensures |r| == |s|
  {
    s[..lo] + m + s[lo + |m|..]
  }

  /** Each element of a Splice: from m inside [lo, lo + |m|), from s elsewhere. */
  lemma SpliceAt(s: seq<int>, lo: int, m: seq<int>)
    requires 0 <= lo && lo + |m| <= |s|
    ensures forall k :: 0 <= k < |s| ==>
      Splice(s, lo, m)[k] == if lo <= k < lo + |m| then m[k - lo] else s[k]
  {
  }

  /** The slices of a Splice: the new run inside, the old values around it. */
  lemma SpliceSlices(s: seq<int>, lo: int, m: seq<int>)
    requires 0 <= lo && lo + |m| <= |s|
    ensures Splice(s, lo, m)[lo..lo + |m|] == m
    ensures Splice(s, lo, m)[..lo] == s[..lo]
    ensures Splice(s, lo, m)[lo + |m|..] == s[lo + |m|..]
  {
    var r := Splice(s, lo, m);
    SpliceAt(s, lo, m);
    assert r[lo..lo + |m|] == m by {
      forall k | 0 <= k < |m| ensures r[lo..lo + |m|][k] == m[k] {
        assert r[lo..lo + |m|][k] == r[lo + k];
      }
    }
  }

  /** The array snapshot s after s[lo..hi) has been sorted in place. */
  function SortRange(s: seq<int>, lo: int, hi: int): (r: seq<int>)
    requires 0 <= lo <= hi <= |s|
    ensures |r| == |s|
  {
    Splice(s, lo, Sort(s[lo..hi]))
  }

  /**
   * The array snapshot s after doMerge(arr, offset1, len1, offset2, len2):
   * the merge of the runs at offset1 and offset2 lands at offset1.
   */
  function MergeRange(s: seq<int>, offset1: int, len1: int, offset2: int, len2: int): (r: seq<int>)
    requires 0 <= offset1 && 0 <= len1 && 0 <= offset2 && 0 <= len2
    requires offset1 + len1 + len2 <= |s| && offset2 + len2 <= |s|
    ensures |r| == |s|
  {
    Splice(s, offset1, Merge(s[offset1..offset1 + len1], s[offset2..offset2 + len2]))
  }

  /**
   * What SortRange means: the range ends sorted and a permutation of its old
   * contents, and every index outside it keeps its value.
   */
  lemma SortRangeMeaning(s: seq<int>, lo: int, hi: int)
    requires 0 <= lo <= hi <= |s|
    ensures |SortRange(s, lo, hi)| == |s|
    ensures Sorted(SortRange(s, lo, hi)[lo..hi])
    ensures multiset(SortRange(s, lo, hi)[lo..hi]) == multiset(s[lo..hi])
    ensures forall k :: 0 <= k < |s| && !(lo <= k < hi) ==> SortRange(s, lo, hi)[k] == s[k]
  {
    SortCorrect(s[lo..hi]);
    SpliceSlices(s, lo, Sort(s[lo..hi]));
    SpliceAt(s, lo, Sort(s[lo..hi]));
  }

  /**
   * What MergeRange means for two adjacent sorted runs: the combined range
   * ends sorted and a permutation of its old contents, and every index outside
   * it keeps its value.
   */
  lemma MergeRangeMeaning(s: seq<int>, lo: int, mid: int, hi: int)
    requires 0 <= lo <= mid <= hi <= |s|
    requires Sorted(s[lo..mid]) && Sorted(s[mid..hi])
    ensures |MergeRange(s, lo, mid - lo, mid, hi - mid)| == |s|
    ensures Sorted(MergeRange(s, lo, mid - lo, mid, hi - mid)[lo..hi])
    ensures multiset(MergeRange(s, lo, mid - lo, mid, hi - mid)[lo..hi]) == multiset(s[lo..hi])
    ensures forall k :: 0 <= k < |s| && !(lo <= k < hi) ==> MergeRange(s, lo, mid - lo, mid, hi - mid)[k] == s[k]
  {
    var m := Merge(s[lo..mid], s[mid..hi]);
    MergeOfRuns(s, lo, mid, hi);
    MergeRangeOfHalves(s, lo, mid, hi, s[lo..mid], s[mid..hi]);
    SpliceSlices(s, lo, m);
    SpliceAt(s, lo, m);
  }

  /** The merge of two adjacent runs of s holds the values of their union, and is sorted if both are. */
  lemma MergeOfRuns(s: seq<int>, lo: int, mid: int, hi: int)
    requires 0 <= lo <= mid <= hi <= |s|
    ensures |Merge(s[lo..mid], s[mid..hi])| == hi - lo
    ensures multiset(Merge(s[lo..mid], s[mid..hi])) == multiset(s[lo..hi])
    ensures Sorted(s[lo..mid]) && Sorted(s[mid..hi]) ==> Sorted(Merge(s[lo..mid], s[mid..hi]))
  {
    var x, y := s[lo..mid], s[mid..hi];
    MergePermutation(x, y);
    assert s[lo..hi] == x + y;
    if Sorted(x) && Sorted(y) {
      MergeSorted(x, y);
    }
  }

  /** Splicing into two disjoint ranges gives the same result in either order. */
  lemma SpliceCommute(s: seq<int>, a: int, m: seq<int>, c: int, n: seq<int>)
    requires 0 <= a && a + |m| <= c && c + |n| <= |s|
    ensures Splice(Splice(s, a, m), c, n) == Splice(Splice(s, c, n), a, m)
  {
    SpliceAt(s, a, m);
    SpliceAt(s, c, n);
    SpliceAt(Splice(s, a, m), c, n);
    SpliceAt(Splice(s, c, n), a, m);
  }

  /** A range that lies wholly outside [lo, lo + |m|) is not touched by a Splice. */
  lemma SpliceKeeps(s: seq<int>, lo: int, m: seq<int>, a: int, b: int)
    requires 0 <= lo && lo + |m| <= |s|
    requires 0 <= a <= b <= |s| && (b <= lo || lo + |m| <= a)
    ensures Splice(s, lo, m)[a..b] == s[a..b]
  {
    var r := Splice(s, lo, m);
    SpliceAt(s, lo, m);
    forall k | 0 <= k < b - a ensures r[a..b][k] == s[a..b][k] {
      assert r[a..b][k] == r[a + k];
    }
  }

  /**
   * Sorting two disjoint ranges gives the same array in either order: this is
   * why forked sort tasks on sibling segments may run in any order.
   */
  lemma SortRangeCommute(s: seq<int>, a: int, b: int, c: int, d: int)
    requires 0 <= a <= b <= c <= d <= |s|
    ensures SortRange(SortRange(s, a, b), c, d) == SortRange(SortRange(s, c, d), a, b)
  {
    SpliceKeeps(s, a, Sort(s[a..b]), c, d);
    SpliceKeeps(s, c, Sort(s[c..d]), a, b);
    SpliceCommute(s, a, Sort(s[a..b]), c, Sort(s[c..d]));
  }

  /**
   * Merging two pairs of adjacent runs that lie in disjoint ranges gives the
   * same array in either order: each merge reads and writes only its own
   * range. This is why the two concurrent first-round merges of Prototype4
   * may run in any order.
   */
  lemma MergeRangeCommute(s: seq<int>, a: int, l1: int, l2: int, c: int, l3: int, l4: int)
    requires 0 <= a && 0 <= l1 && 0 <= l2 && 0 <= l3 && 0 <= l4
    requires a + l1 + l2 <= c && c + l3 + l4 <= |s|
    ensures MergeRange(MergeRange(s, a, l1, a + l1, l2), c, l3, c + l3, l4)
            == MergeRange(MergeRange(s, c, l3, c + l3, l4), a, l1, a + l1, l2)
  {
    var m1 := Merge(s[a..a + l1], s[a + l1..a + l1 + l2]);
    var m2 := Merge(s[c..c + l3], s[c + l3..c + l3 + l4]);
    SpliceKeeps(s, a, m1, c, c + l3);
    SpliceKeeps(s, a, m1, c + l3, c + l3 + l4);
    SpliceKeeps(s, c, m2, a, a + l1);
    SpliceKeeps(s, c, m2, a + l1, a + l1 + l2);
    SpliceCommute(s, a, m1, c, m2);
  }

  /**
   * SortHalvesThenMergeAt with the run lengths passed alongside the
   * boundaries lo <= mid <= hi, as doMerge receives them.
   */
  lemma SortRunsThenMerge(s: seq<int>, lo: int, len1: int, mid: int, len2: int, hi: int)
    requires 0 <= lo && 0 <= len1 && mid == lo + len1 && 0 <= len2 && hi == mid + len2 && hi <= |s|
    ensures MergeRange(SortRange(SortRange(s, lo, mid), mid, hi), lo, len1, mid, len2) == SortRange(s, lo, hi)
  {
    SortHalvesThenMergeAt(s, lo, mid, hi);
    assert len1 == mid - lo && len2 == hi - mid;
  }

  /**
   * The recursive step over [lo, hi) split at mid: sort [lo, mid), sort
   * [mid, hi), then merge the two runs at lo; the result is s with [lo, hi)
   * sorted.
   */
  lemma SortHalvesThenMergeAt(s: seq<int>, lo: int, mid: int, hi: int)
    requires 0 <= lo <= mid <= hi <= |s|
    ensures MergeRange(SortRange(SortRange(s, lo, mid), mid, hi), lo, mid - lo, mid, hi - mid)
            == SortRange(s, lo, hi)
  {
    var t := SortRange(SortRange(s, lo, mid), mid, hi);
    TwoSortedHalves(s, lo, mid, hi);
    MergeOfSortedHalves(s, t, lo, mid, hi);
    SpliceOver(s, t, lo, Sort(s[lo..hi]));
  }

  /**
   * Merging two halves that hold the sorted values of s's halves places the
   * sorted values of s[lo..hi) at lo.
   */
  lemma MergeOfSortedHalves(s: seq<int>, t: seq<int>, lo: int, mid: int, hi: int)
    requires 0 <= lo <= mid <= hi <= |s| == |t|
    requires t[lo..mid] == Sort(s[lo..mid]) && t[mid..hi] == Sort(s[mid..hi])
    ensures MergeRange(t, lo, mid - lo, mid, hi - mid) == Splice(t, lo, Sort(s[lo..hi]))
  {
    MergeRangeOfHalves(t, lo, mid, hi, Sort(s[lo..mid]), Sort(s[mid..hi]));
    MergeOfSortedSlices(s, lo, mid, hi);
  }

  /** The sorted values of two adjacent slices merge into the sorted values of their union. */
  lemma MergeOfSortedSlices(s: seq<int>, lo: int, mid: int, hi: int)
    requires 0 <= lo <= mid <= hi <= |s|
    ensures Merge(Sort(s[lo..mid]), Sort(s[mid..hi])) == Sort(s[lo..hi])
  {
    assert s[lo..hi] == s[lo..mid] + s[mid..hi];
    MergeOfSorts(s[lo..mid], s[mid..hi]);
  }

  /** MergeRange of two adjacent runs, with the runs' contents named. */
  lemma MergeRangeOfHalves(t: seq<int>, lo: int, mid: int, hi: int, m1: seq<int>, m2: seq<int>)
    requires 0 <= lo <= mid <= hi <= |t|
    requires t[lo..mid] == m1 && t[mid..hi] == m2
    ensures MergeRange(t, lo, mid - lo, mid, hi - mid) == Splice(t, lo, Merge(m1, m2))
  {
  }

  /** After sorting [lo, mid) and then [mid, hi), each half holds its sorted values. */
  lemma TwoSortedHalves(s: seq<int>, lo: int, mid: int, hi: int)
    requires 0 <= lo <= mid <= hi <= |s|
    ensures |SortRange(SortRange(s, lo, mid), mid, hi)| == |s|
    ensures SortRange(SortRange(s, lo, mid), mid, hi)[lo..mid] == Sort(s[lo..mid])
    ensures SortRange(SortRange(s, lo, mid), mid, hi)[mid..hi] == Sort(s[mid..hi])
    ensures forall k :: 0 <= k < |s| && !(lo <= k < hi) ==> SortRange(SortRange(s, lo, mid), mid, hi)[k] == s[k]
  {
    var x, y := s[lo..mid], s[mid..hi];
    var t1 := Splice(s, lo, Sort(x));
    SpliceKeeps(s, lo, Sort(x), mid, hi);
    SpliceSlices(s, lo, Sort(x));
    var t2 := Splice(t1, mid, Sort(y));
    SpliceKeeps(t1, mid, Sort(y), lo, mid);
    SpliceSlices(t1, mid, Sort(y));
    SpliceAt(s, lo, Sort(x));
    SpliceAt(t1, mid, Sort(y));
  }

  /** Splicing a run over [lo, lo + |m|) erases any earlier change inside that range. */
  lemma SpliceOver(s: seq<int>, t: seq<int>, lo: int, m: seq<int>)
    requires 0 <= lo && lo + |m| <= |s| == |t|
    requires forall k :: 0 <= k < |s| && !(lo <= k < lo + |m|) ==> t[k] == s[k]
    ensures Splice(t, lo, m) == Splice(s, lo, m)
  {
    SpliceAt(s, lo, m);
    SpliceAt(t, lo, m);
  }

  /** Sorting the whole snapshot as one range is the reference sort. */
  lemma SortRangeWhole(s: seq<int>)
    ensures SortRange(s, 0, |s|) == Sort(s)
  {
    assert s[0..|s|] == s;
  }

  /** n, n-1, ..., 1: the test input of the benchmark harness. */
  function Descending(n: nat): (r: seq<int>)
    ensures |r| == n
  {
    seq(n, i requires 0 <= i < n => n - i)
  }

  /** 1, 2, ..., n: the expected result of sorting Descending(n). */
  function Ascending(n: nat): (r: seq<int>)
    ensures |r| == n
  {
    seq(n, i requires 0 <= i < n => i + 1)
  }

  /** The reverse-ordered and the ascending sequence of length n hold the same values. */
  lemma {:induction false} DescendingAscendingSameValues(n: nat)
    ensures multiset(Descending(n)) == multiset(Ascending(n))
  {
    if n > 0 {
      DescendingAscendingSameValues(n - 1);
      assert Descending(n) == [n] + Descending(n - 1);
      assert Ascending(n) == Ascending(n - 1) + [n];
    }
  }

  /** A reverse-ordered input n, ..., 1 sorts to 1, ..., n. */
  lemma SortDescending(n: nat)
    ensures Sort(Descending(n)) == Ascending(n)
  {
    DescendingAscendingSameValues(n);
    SortCorrect(Descending(n));
    SortedUnique(Sort(Descending(n)), Ascending(n));
  }
}
