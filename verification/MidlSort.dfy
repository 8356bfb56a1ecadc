/** mdb_midl_sort: quicksort on an ID list with an explicit stack, sentinel scans
    and a shared insertion sort.  ids[0] is the count; the order is descending. */
module MidlSort {

  const SMALL: int := 8
  const STACK_SLOTS: int := 64
  const MAX_IDS: int := 0x4000_0000

  ghost predicate Descending(s: seq<nat>, lo: int, hi: int)
    requires 0 <= lo && hi < |s|
  {
    forall p, q :: lo <= p < q <= hi ==> s[p] >= s[q]
  }

  /** t is s with the elements at lo..hi rearranged. */
  ghost predicate Permuted(s: seq<nat>, t: seq<nat>, lo: int, hi: int)
    requires 0 <= lo <= hi + 1 <= |s|
  {
    && |t| == |s| && t[..lo] == s[..lo] && t[hi + 1..] == s[hi + 1..]
    && multiset(t[lo..hi + 1]) == multiset(s[lo..hi + 1])
  }

  /** Every element of the rearranged part stood somewhere in it before. */
  lemma PermutedFrom(s: seq<nat>, t: seq<nat>, lo: int, hi: int, q: int) returns (p: int)
    requires 0 <= lo <= hi + 1 <= |s| && Permuted(s, t, lo, hi) && lo <= q <= hi
    ensures lo <= p <= hi && s[p] == t[q]
  {
    assert t[lo..hi + 1][q - lo] == t[q];
    assert t[q] in multiset(t[lo..hi + 1]);
    assert t[q] in s[lo..hi + 1];
    var k :| 0 <= k < |s[lo..hi + 1]| && s[lo..hi + 1][k] == t[q];
    p := lo + k;
  }

  lemma PermutedOutside(s: seq<nat>, t: seq<nat>, lo: int, hi: int, p: int)
    requires 0 <= lo <= hi + 1 <= |s| && Permuted(s, t, lo, hi) && 0 <= p < |s| && (p < lo || hi < p)
    ensures t[p] == s[p]
  {
    if p < lo {
      assert t[..lo][p] == s[..lo][p];
    } else {
      assert t[hi + 1..][p - hi - 1] == s[hi + 1..][p - hi - 1];
    }
  }

  lemma SwapPermuted(s: seq<nat>, i: int, j: int, lo: int, hi: int)
    requires 0 <= lo <= i <= hi && lo <= j <= hi < |s|
    ensures Permuted(s, s[i := s[j]][j := s[i]], lo, hi)
  {
    var t := s[i := s[j]][j := s[i]];
    var a, b := s[lo..hi + 1], t[lo..hi + 1];
    assert b == a[i - lo := a[j - lo]][j - lo := a[i - lo]];
  }

  /** Moving the element at j down to position i, shifting those between up by one. */
  function Rotated(s: seq<nat>, i: int, j: int): seq<nat>
    requires 0 <= i <= j < |s|
  {
    s[..i] + [s[j]] + s[i..j] + s[j + 1..]
  }

  lemma RotatedPermuted(s: seq<nat>, i: int, j: int, lo: int, hi: int)
    requires 0 <= lo <= i <= j <= hi < |s|
    ensures Permuted(s, Rotated(s, i, j), lo, hi)
  {
    var t := Rotated(s, i, j);
    var a, m, d := s[lo..i], s[i..j], s[j + 1..hi + 1];
    assert t == s[..lo] + (a + [s[j]] + m + d) + s[hi + 1..];
    assert s == s[..lo] + (a + m + [s[j]] + d) + s[hi + 1..];
    assert t[lo..hi + 1] == a + [s[j]] + m + d;
    assert s[lo..hi + 1] == a + m + [s[j]] + d;
  }

  /** Swaps two ids of lo..hi, which stay a rearrangement of s. */
  method Swap(ids: array<nat>, i: int, j: int, ghost lo: int, ghost hi: int, ghost s: seq<nat>)
    requires 0 <= lo <= i <= hi && lo <= j <= hi < ids.Length == |s| && Permuted(s, ids[..], lo, hi)
    modifies ids
    ensures ids[i] == old(ids[j]) && ids[j] == old(ids[i])
    ensures forall p :: 0 <= p < ids.Length && p != i && p != j ==> ids[p] == old(ids[p])
    ensures Permuted(s, ids[..], lo, hi)
  {
    SwapPermuted(ids[..], i, j, lo, hi);
    var itmp := ids[i];
    ids[i] := ids[j];
    ids[j] := itmp;
    assert ids[..] == old(ids[..])[i := old(ids[j])][j := old(ids[i])];
    PermutedTrans(s, old(ids[..]), ids[..], lo, hi);
  }

  /** Everything left of the segment is at least everything in it. */
  ghost predicate BoundedBelow(s: seq<nat>, l: int, ir: int)
    requires 1 <= l && ir < |s|
  {
    forall p, q :: 1 <= p < l <= q <= ir ==> s[p] >= s[q]
  }

  /** The insertion sort of a small segment. */
  method InsertionSort(ids: array<nat>, l: int, ir: int)
    requires 1 <= l <= ir + 1 <= ids.Length && BoundedBelow(ids[..], l, ir)
    modifies ids
    ensures Permuted(old(ids[..]), ids[..], l, ir) && Descending(ids[..], l, ir)
  {
    ghost var s := ids[..];
    var j := l + 1;
    while j <= ir
      invariant l + 1 <= j && (j <= ir + 1 || j == l + 1)
      invariant Permuted(s, ids[..], l, ir)
      invariant BoundedBelow(ids[..], l, ir)
      invariant j <= ir + 1 ==> Descending(ids[..], l, j - 1)
    {
      ghost var t := ids[..];
      InsertOne(ids, l, j, ir);
      PermutedTrans(s, t, ids[..], l, ir);
      j := j + 1;
    }
  }

  /** One element goes to its place. */
  method InsertOne(ids: array<nat>, l: int, j: int, ghost ir: int)
    requires 1 <= l < j <= ir < ids.Length
    requires BoundedBelow(ids[..], l, ir) && Descending(ids[..], l, j - 1)
    modifies ids
    ensures Permuted(old(ids[..]), ids[..], l, ir)
    ensures BoundedBelow(ids[..], l, ir) && Descending(ids[..], l, j)
  {
    ghost var s := ids[..];
    var a := ids[j];
    forall p | 1 <= p < l
      ensures ids[p] >= a
    {
      assert s[p] >= s[j];
    }
    var i := ShiftUp(ids, l, j, a);
    ids[i] := a;
    InsertedInPlace(s, ids[..], i, j, l, ir);
  }

  /** Shifts the smaller elements before j up by one.  The scan is not stopped at l,
      but the larger elements below l stop it.  Returns the slot left free. */
  method ShiftUp(ids: array<nat>, ghost l: int, j: int, a: nat) returns (free: int)
    requires 1 <= l < j < ids.Length
    requires forall p :: 1 <= p < l ==> ids[p] >= a
    modifies ids
    ensures l <= free <= j && (free > l ==> old(ids[free - 1]) >= a)
    ensures forall p :: 0 <= p < free || j < p < ids.Length ==> ids[p] == old(ids[p])
    ensures forall p :: free < p <= j ==> ids[p] == old(ids[p - 1]) && ids[p] < a
  {
    var i := j - 1;
    while i >= 1
      invariant l - 1 <= i <= j - 1
      invariant forall p :: 0 <= p <= i || j < p < ids.Length ==> ids[p] == old(ids[p])
      invariant forall p :: i + 2 <= p <= j ==> ids[p] == old(ids[p - 1]) && ids[p] < a
    {
      if ids[i] >= a {
        break;
      }
      ids[i + 1] := ids[i];
      i := i - 1;
    }
    free := i + 1;
  }

  lemma InsertedInPlace(s: seq<nat>, t: seq<nat>, i: int, j: int, l: int, ir: int)
    requires 1 <= l <= i <= j <= ir < |s| && |t| == |s|
    requires Descending(s, l, j - 1) && BoundedBelow(s, l, ir)
    requires forall p :: 0 <= p < i ==> t[p] == s[p]
    requires t[i] == s[j]
    requires forall p :: i < p <= j ==> t[p] == s[p - 1] && t[p] < s[j]
    requires forall p :: j < p < |s| ==> t[p] == s[p]
    requires i > l ==> s[i - 1] >= s[j]
    ensures Permuted(s, t, l, ir) && BoundedBelow(t, l, ir) && Descending(t, l, j)
  {
    assert t == Rotated(s, i, j);
    RotatedPermuted(s, i, j, l, ir);
    InsertedDescends(s, t, i, j, l);
  }

  lemma InsertedDescends(s: seq<nat>, t: seq<nat>, i: int, j: int, l: int)
    requires 1 <= l <= i <= j < |s| == |t| && Descending(s, l, j - 1)
    requires forall p :: l <= p < i ==> t[p] == s[p]
    requires t[i] == s[j]
    requires forall p :: i < p <= j ==> t[p] == s[p - 1] && t[p] < s[j]
    requires i > l ==> s[i - 1] >= s[j]
    ensures Descending(t, l, j)
  {
  }

  lemma PermutedTrans(s: seq<nat>, t: seq<nat>, u: seq<nat>, lo: int, hi: int)
    requires 0 <= lo <= hi + 1 <= |s| && Permuted(s, t, lo, hi) && Permuted(t, u, lo, hi)
    ensures Permuted(s, u, lo, hi)
  {
  }

  /** Median of left, center and right: it lands at l + 1 between its neighbours. */
  method MedianOfThree(ids: array<nat>, l: int, ir: int)
    requires 1 <= l && l + SMALL <= ir < ids.Length && l + ir < 0x8000_0000
    modifies ids
    ensures Permuted(old(ids[..]), ids[..], l, ir)
    ensures ids[l] >= ids[l + 1] >= ids[ir]
  {
    ghost var s := ids[..];
    var k := (l + ir) / 2;
    Swap(ids, k, l + 1, l, ir, s);
    SwapIfLess(ids, l, ir, l, ir, s);
    SwapIfLess(ids, l + 1, ir, l, ir, s);
    SwapIfLess(ids, l, l + 1, l, ir, s);
  }

  method SwapIfLess(ids: array<nat>, i: int, j: int, ghost lo: int, ghost hi: int, ghost s: seq<nat>)
    requires 0 <= lo <= i <= hi && lo <= j <= hi < ids.Length == |s| && Permuted(s, ids[..], lo, hi)
    modifies ids
    ensures ids[i] == (if old(ids[i]) < old(ids[j]) then old(ids[j]) else old(ids[i]))
    ensures ids[j] == (if old(ids[i]) < old(ids[j]) then old(ids[i]) else old(ids[j]))
    ensures forall p :: 0 <= p < ids.Length && p != i && p != j ==> ids[p] == old(ids[p])
    ensures Permuted(s, ids[..], lo, hi)
  {
    if ids[i] < ids[j] {
      Swap(ids, i, j, lo, hi, s);
    }
  }

  /** What a partition of l..ir around a leaves: not below a, equal to a, not above a. */
  ghost predicate Partitioned(s: seq<nat>, l: int, j: int, i: int, ir: int)
    requires 1 <= l <= j < i <= ir + 1 <= |s|
  {
    && (forall p :: l <= p < j ==> s[p] >= s[j])
    && (forall p :: j < p < i ==> s[p] == s[j])
    && (forall p :: i <= p <= ir ==> s[p] <= s[j])
  }

  /** The two scans run without a bound check: the medians at both ends stop them. */
  method Scan(ids: array<nat>, l: int, ir: int) returns (i: int, j: int)
    requires 1 <= l && l + SMALL <= ir < ids.Length && ids[l] >= ids[l + 1] >= ids[ir]
    modifies ids
    ensures l < j < i <= ir && ids[l + 1] == old(ids[l + 1])
    ensures Permuted(old(ids[..]), ids[..], l, ir)
    ensures forall p :: l <= p < i ==> ids[p] >= ids[l + 1]
    ensures forall p :: j < p <= ir ==> ids[p] <= ids[l + 1]
    ensures ids[j] >= ids[l + 1]
  {
    ghost var s := ids[..];
    i, j := l + 1, ir;
    var a := ids[l + 1];
    while true
      invariant l + 1 <= i < ir && l + 1 < j <= ir
      invariant Permuted(s, ids[..], l, ir)
      invariant ids[l + 1] == a
      invariant forall p :: l <= p <= i ==> ids[p] >= a
      invariant forall p :: j <= p <= ir ==> ids[p] <= a
      decreases ir - i
    {
      i := ScanUp(ids, i, ir, a);
      j := ScanDown(ids, l + 1, j, a);
      if j < i {
        break;
      }
      Swap(ids, i, j, l, ir, s);
    }
  }

  /** do i++; while (ids[i] > a) */
  method ScanUp(ids: array<nat>, i0: int, ir: int, a: nat) returns (i: int)
    requires 0 <= i0 < ir < ids.Length && ids[ir] <= a
    ensures i0 < i <= ir && ids[i] <= a && forall p :: i0 < p < i ==> ids[p] > a
  {
    i := i0 + 1;
    while ids[i] > a
      invariant i0 < i <= ir && forall p :: i0 < p < i ==> ids[p] > a
      decreases ir - i
    {
      i := i + 1;
    }
  }

  /** do j--; while (ids[j] < a) */
  method ScanDown(ids: array<nat>, lo: int, j0: int, a: nat) returns (j: int)
    requires 0 <= lo < j0 <= ids.Length && ids[lo] >= a
    ensures lo <= j < j0 && ids[j] >= a && forall p :: j < p < j0 ==> ids[p] < a
  {
    j := j0 - 1;
    while ids[j] < a
      invariant lo <= j < j0 && forall p :: j < p < j0 ==> ids[p] < a
      decreases j
    {
      j := j - 1;
    }
  }

  method Partition(ids: array<nat>, l: int, ir: int) returns (i: int, j: int)
    requires 1 <= l && l + SMALL <= ir < ids.Length && l + ir < 0x8000_0000
    modifies ids
    ensures l < j < i <= ir
    ensures Permuted(old(ids[..]), ids[..], l, ir) && Partitioned(ids[..], l, j, i, ir)
  {
    ghost var s0 := ids[..];
    MedianOfThree(ids, l, ir);
    ghost var s1 := ids[..];
    var a := ids[l + 1];
    i, j := Scan(ids, l, ir);
    ghost var s2 := ids[..];
    PermutedTrans(s0, s1, s2, l, ir);
    PlacePivot(ids, l, j, i, ir, a);
    PermutedTrans(s0, s2, ids[..], l, ir);
  }

  method PlacePivot(ids: array<nat>, l: int, j: int, ghost i: int, ghost ir: int, a: nat)
    requires 1 <= l < j < i <= ir < ids.Length && ids[l + 1] == a <= ids[j]
    requires forall p :: l <= p < i ==> ids[p] >= a
    requires forall p :: j < p <= ir ==> ids[p] <= a
    modifies ids
    ensures Permuted(old(ids[..]), ids[..], l, ir) && Partitioned(ids[..], l, j, i, ir)
  {
    Swap(ids, l + 1, j, l, ir, ids[..]);
  }

  // ---------- the unfinished segments ----------

  /** A segment lo..hi that is still to be sorted. */
  datatype Segment = Segment(lo: int, hi: int)
  {
    predicate Has(p: int) {
      lo <= p <= hi
    }

    function Size(): nat {
      if hi < lo then 0 else hi - lo + 1
    }
  }

  ghost predicate Apart(a: Segment, b: Segment) {
    a.hi < b.lo || b.hi < a.lo
  }

  /** Segments inside 1..n, no two of them overlapping. */
  ghost predicate Layout(segs: seq<Segment>, n: int) {
    && (forall m :: 0 <= m < |segs| ==> 1 <= segs[m].lo <= segs[m].hi + 1 <= n + 1)
    && (forall m, k :: 0 <= m < k < |segs| ==> Apart(segs[m], segs[k]))
  }

  ghost predicate Together(segs: seq<Segment>, p: int, q: int) {
    exists m :: 0 <= m < |segs| && segs[m].Has(p) && segs[m].Has(q)
  }

  /** Two ids in the wrong order stand in one unfinished segment. */
  ghost predicate OnlySegmentsUnsorted(s: seq<nat>, n: int, segs: seq<Segment>)
    requires n < |s|
  {
    forall p, q :: 1 <= p < q <= n && s[p] < s[q] ==> Together(segs, p, q)
  }

  /** An id outside the last segment is ordered against everything in it. */
  lemma OutsideOrdered(s: seq<nat>, n: int, segs: seq<Segment>, p: int, q: int)
    requires n < |s| && |segs| > 0 && Layout(segs, n) && OnlySegmentsUnsorted(s, n, segs)
    requires segs[|segs| - 1].Has(q) && 1 <= p <= n && !segs[|segs| - 1].Has(p)
    ensures p < q ==> s[p] >= s[q]
    ensures q < p ==> s[q] >= s[p]
  {
    NotTogether(segs, n, p, q);
  }

  lemma NotTogether(segs: seq<Segment>, n: int, p: int, q: int)
    requires |segs| > 0 && Layout(segs, n) && segs[|segs| - 1].Has(q) && !segs[|segs| - 1].Has(p)
    ensures !Together(segs, p, q) && !Together(segs, q, p)
  {
    forall m | 0 <= m < |segs|
      ensures !segs[m].Has(p) || !segs[m].Has(q)
    {
      assert m < |segs| - 1 ==> Apart(segs[m], segs[|segs| - 1]);
    }
  }

  /** Rearranging one unfinished segment leaves the disorder inside segments. */
  lemma RearrangedSegment(s: seq<nat>, t: seq<nat>, n: int, segs: seq<Segment>)
    requires n < |s| && |segs| > 0 && Layout(segs, n) && OnlySegmentsUnsorted(s, n, segs)
    requires var g := segs[|segs| - 1]; Permuted(s, t, g.lo, g.hi)
    ensures OnlySegmentsUnsorted(t, n, segs)
  {
    var g := segs[|segs| - 1];
    forall p, q | 1 <= p < q <= n && t[p] < t[q]
      ensures Together(segs, p, q)
    {
      if g.Has(q) && !g.Has(p) {
        var k := PermutedFrom(s, t, g.lo, g.hi, q);
        PermutedOutside(s, t, g.lo, g.hi, p);
        OutsideOrdered(s, n, segs, p, k);
      } else if g.Has(p) && !g.Has(q) {
        var k := PermutedFrom(s, t, g.lo, g.hi, p);
        PermutedOutside(s, t, g.lo, g.hi, q);
        OutsideOrdered(s, n, segs, q, k);
      } else if !g.Has(p) {
        PermutedOutside(s, t, g.lo, g.hi, p);
        PermutedOutside(s, t, g.lo, g.hi, q);
        assert Together(segs, p, q);
      }
    }
  }

  /** A sorted segment may be dropped. */
  lemma SortedSegment(s: seq<nat>, n: int, segs: seq<Segment>)
    requires n < |s| && |segs| > 0 && Layout(segs, n) && OnlySegmentsUnsorted(s, n, segs)
    requires var g := segs[|segs| - 1]; Descending(s, g.lo, g.hi)
    ensures OnlySegmentsUnsorted(s, n, segs[..|segs| - 1]) && Layout(segs[..|segs| - 1], n)
  {
    var rest := segs[..|segs| - 1];
    forall p, q | 1 <= p < q <= n && s[p] < s[q]
      ensures Together(rest, p, q)
    {
      var m :| 0 <= m < |segs| && segs[m].Has(p) && segs[m].Has(q);
      assert rest[m] == segs[m];
    }
  }

  /** A partitioned segment may be replaced by its two sides, in either order. */
  lemma SplitSegment(s: seq<nat>, n: int, rest: seq<Segment>, l: int, j: int, i: int, ir: int)
    requires 1 <= l < j < i <= ir <= n < |s|
    requires Layout(rest + [Segment(l, ir)], n) && OnlySegmentsUnsorted(s, n, rest + [Segment(l, ir)])
    requires Partitioned(s, l, j, i, ir)
    ensures var left, right := Segment(l, j - 1), Segment(i, ir);
            && Layout(rest + [right, left], n) && OnlySegmentsUnsorted(s, n, rest + [right, left])
            && Layout(rest + [left, right], n) && OnlySegmentsUnsorted(s, n, rest + [left, right])
  {
    var left, right := Segment(l, j - 1), Segment(i, ir);
    SplitLayout(n, rest, Segment(l, ir), right, left);
    SplitLayout(n, rest, Segment(l, ir), left, right);
    var segs, k := rest + [Segment(l, ir)], |rest|;
    forall p, q | 1 <= p < q <= n && s[p] < s[q]
      ensures Together(rest + [right, left], p, q) && Together(rest + [left, right], p, q)
    {
      var m :| 0 <= m < |segs| && segs[m].Has(p) && segs[m].Has(q);
      if m < k {
        assert segs[m] == rest[m] == (rest + [right, left])[m] == (rest + [left, right])[m];
      } else {
        SameSide(s, l, j, i, ir, p, q);
        assert (rest + [right, left])[k] == right == (rest + [left, right])[k + 1];
        assert (rest + [right, left])[k + 1] == left == (rest + [left, right])[k];
      }
    }
  }

  /** After a partition only ids of one side can be in the wrong order. */
  lemma SameSide(s: seq<nat>, l: int, j: int, i: int, ir: int, p: int, q: int)
    requires 1 <= l < j < i <= ir < |s| && Partitioned(s, l, j, i, ir)
    requires l <= p < q <= ir && s[p] < s[q]
    ensures q < j || i <= p
  {
  }

  lemma SplitLayout(n: int, rest: seq<Segment>, whole: Segment, a: Segment, b: Segment)
    requires Layout(rest + [whole], n) && Apart(a, b)
    requires whole.lo <= a.lo <= a.hi <= whole.hi && whole.lo <= b.lo <= b.hi <= whole.hi
    ensures Layout(rest + [a, b], n)
  {
    var segs, t, k := rest + [whole], rest + [a, b], |rest|;
    assert segs[k] == whole && t[k] == a && t[k + 1] == b;
    forall m | 0 <= m < k
      ensures t[m] == segs[m] && Apart(segs[m], whole)
    {
    }
  }

  function Pow2(k: nat): (r: nat)
    ensures r > 0
  {
    if k == 0 then 1 else 2 * Pow2(k - 1)
  }

  /** Work left: every split and every finished segment lowers it. */
  function Work(segs: seq<Segment>): nat {
    if |segs| == 0 then 0 else Work(segs[..|segs| - 1]) + 2 * segs[|segs| - 1].Size() + 1
  }

  lemma WorkPush(segs: seq<Segment>, a: Segment)
    ensures Work(segs + [a]) == Work(segs) + 2 * a.Size() + 1
  {
    assert (segs + [a])[..|segs|] == segs;
  }

  lemma WorkSplit(rest: seq<Segment>, whole: Segment, left: Segment, right: Segment)
    requires left.Size() + right.Size() < whole.Size()
    ensures Work(rest + [left] + [right]) < Work(rest + [whole])
    ensures Work(rest + [right] + [left]) < Work(rest + [whole])
  {
    WorkPush(rest, whole);
    WorkPush(rest, left);
    WorkPush(rest, right);
    WorkPush(rest + [left], right);
    WorkPush(rest + [right], left);
  }

  /** A pending segment at stack depth k is at most n / 2^k long, because the smaller
      side is the one worked on next. */
  ghost predicate Halving(segs: seq<Segment>, n: int) {
    forall m :: 0 <= m < |segs| ==> segs[m].Size() * Pow2(m) <= n
  }

  /** So a segment long enough to split is never deeper than 26 levels. */
  lemma DepthBound(k: nat, size: int, n: int)
    requires size > SMALL && size * Pow2(k) <= n <= MAX_IDS
    ensures k < 27
  {
    Product(size, 9, Pow2(k));
    if k >= 27 {
      Pow2Monotone(27, k);
      Pow2Of27();
    }
  }

  lemma Product(a: int, b: int, c: nat)
    requires a >= b
    ensures a * c >= b * c
  {
  }

  lemma Pow2Of27()
    ensures Pow2(27) == 0x800_0000
  {
    assert Pow2(9) == 512;
    assert Pow2(18) == 512 * Pow2(9);
    assert Pow2(27) == 512 * Pow2(18);
  }

  lemma {:induction false} Pow2Monotone(j: nat, k: nat)
    requires j <= k
    ensures Pow2(j) <= Pow2(k)
  {
    if j >= k {
    } else {
      Pow2Monotone(j, k - 1);
    }
  }

  lemma HalvedSize(whole: int, part: int, k: nat, n: int)
    requires whole * Pow2(k) <= n && 2 * part <= whole
    ensures part * Pow2(k + 1) <= n
  {
    assert part * Pow2(k + 1) == 2 * part * Pow2(k);
    Product(whole, 2 * part, Pow2(k));
  }

  lemma PartSize(whole: int, part: int, k: nat, n: int)
    requires whole * Pow2(k) <= n && part <= whole
    ensures part * Pow2(k) <= n
  {
    Product(whole, part, Pow2(k));
  }

  lemma HalvingSplit(rest: seq<Segment>, whole: Segment, big: Segment, small: Segment, n: int)
    requires Halving(rest + [whole], n)
    requires big.Size() <= whole.Size() && 2 * small.Size() <= whole.Size()
    ensures Halving(rest + [big, small], n)
  {
    var k := |rest|;
    var a, b := rest + [whole], rest + [big, small];
    assert a[k].Size() * Pow2(k) <= n;
    PartSize(whole.Size(), big.Size(), k, n);
    HalvedSize(whole.Size(), small.Size(), k, n);
    forall m | 0 <= m < |b|
      ensures b[m].Size() * Pow2(m) <= n
    {
      if m < k {
        assert a[m] == b[m];
      }
    }
  }

  /** The stack slots hold the pending segments, bottom first. */
  ghost predicate StackHolds(istack: array<int>, jstack: int, pending: seq<Segment>)
    reads istack
  {
    && jstack == 2 * |pending| < istack.Length
    && forall m :: 0 <= m < |pending| ==> istack[2 * m + 1] == pending[m].lo && istack[2 * m + 2] == pending[m].hi
  }

  ghost predicate SortInvariant(s: seq<nat>, n: int, pending: seq<Segment>, l: int, ir: int)
    requires n < |s|
  {
    var segs := pending + [Segment(l, ir)];
    Layout(segs, n) && OnlySegmentsUnsorted(s, n, segs) && Halving(segs, n)
  }

  lemma WholeSegment(s: seq<nat>, n: int)
    requires 0 <= n < |s|
    ensures SortInvariant(s, n, [], 1, n) && Permuted(s, s, 1, n)
  {
    var segs := [] + [Segment(1, n)];
    assert segs[0].Size() * Pow2(0) == n;
    forall p, q | 1 <= p < q <= n
      ensures Together(segs, p, q)
    {
      assert segs[0].Has(p) && segs[0].Has(q);
    }
  }

  lemma WiderPermuted(s: seq<nat>, t: seq<nat>, l: int, ir: int, n: int)
    requires 1 <= l <= ir + 1 <= n + 1 <= |s| && Permuted(s, t, l, ir)
    ensures Permuted(s, t, 1, n) && t[0] == s[0]
  {
    assert t[0] == t[..l][0] == s[..l][0];
    assert t[1..n + 1] == t[..l][1..] + t[l..ir + 1] + t[ir + 1..][..n - ir];
    assert s[1..n + 1] == s[..l][1..] + s[l..ir + 1] + s[ir + 1..][..n - ir];
    assert t[..1] == t[..l][..1] && t[n + 1..] == t[ir + 1..][n - ir..];
    assert s[..1] == s[..l][..1] && s[n + 1..] == s[ir + 1..][n - ir..];
  }

  /** The small-segment branch: the segment is sorted and leaves the list of pending. */
  method SortSmall(ids: array<nat>, l: int, ir: int, ghost n: int, ghost pending: seq<Segment>)
    requires 0 <= n < ids.Length && SortInvariant(ids[..], n, pending, l, ir)
    modifies ids
    ensures ids[0] == old(ids[0]) && Permuted(old(ids[..]), ids[..], 1, n)
    ensures Layout(pending, n) && OnlySegmentsUnsorted(ids[..], n, pending) && Halving(pending, n)
    ensures pending == [] ==> Descending(ids[..], 1, n)
  {
    ghost var segs := pending + [Segment(l, ir)];
    ghost var s := ids[..];
    assert segs[|pending|] == Segment(l, ir);
    forall p, q | 1 <= p < l <= q <= ir
      ensures s[p] >= s[q]
    {
      OutsideOrdered(s, n, segs, p, q);
    }
    InsertionSort(ids, l, ir);
    WiderPermuted(s, ids[..], l, ir, n);
    RearrangedSegment(s, ids[..], n, segs);
    SortedSegment(ids[..], n, segs);
    assert segs[..|pending|] == pending;
    HalvingRest(pending, Segment(l, ir), n);
    if pending == [] {
      NothingPending(ids[..], n);
    }
  }

  lemma HalvingRest(rest: seq<Segment>, last: Segment, n: int)
    requires Halving(rest + [last], n)
    ensures Halving(rest, n)
  {
    assert forall m :: 0 <= m < |rest| ==> (rest + [last])[m] == rest[m];
  }

  lemma NothingPending(s: seq<nat>, n: int)
    requires 0 <= n < |s| && OnlySegmentsUnsorted(s, n, [])
    ensures Descending(s, 1, n)
  {
    forall p, q | 1 <= p < q <= n
      ensures s[p] >= s[q]
    {
      assert !Together([], p, q);
    }
  }

  /** The splitting branch: whichever side is larger may be pushed. */
  method PartitionSegment(ids: array<nat>, l: int, ir: int, ghost n: int, ghost pending: seq<Segment>)
    returns (i: int, j: int)
    requires 0 <= n < ids.Length && n <= MAX_IDS && l + SMALL <= ir
    requires SortInvariant(ids[..], n, pending, l, ir)
    modifies ids
    ensures l < j < i <= ir
    ensures ids[0] == old(ids[0]) && Permuted(old(ids[..]), ids[..], 1, n)
    ensures ir - i + 1 >= j - l ==> SortInvariant(ids[..], n, pending + [Segment(i, ir)], l, j - 1)
    ensures ir - i + 1 < j - l ==> SortInvariant(ids[..], n, pending + [Segment(l, j - 1)], i, ir)
  {
    ghost var segs := pending + [Segment(l, ir)];
    ghost var s := ids[..];
    assert segs[|pending|] == Segment(l, ir);
    i, j := Partition(ids, l, ir);
    WiderPermuted(s, ids[..], l, ir, n);
    RearrangedSegment(s, ids[..], n, segs);
    SplitSegment(ids[..], n, pending, l, j, i, ir);
    ghost var left, right := Segment(l, j - 1), Segment(i, ir);
    assert pending + [right] + [left] == pending + [right, left];
    assert pending + [left] + [right] == pending + [left, right];
    if ir - i + 1 >= j - l {
      HalvingSplit(pending, Segment(l, ir), right, left, n);
    } else {
      HalvingSplit(pending, Segment(l, ir), left, right, n);
    }
  }

  /** What holds at the head of the main loop. */
  ghost predicate Looping(ids: array<nat>, n: int, istack: array<int>, jstack: int, l: int, ir: int,
                          pending: seq<Segment>)
    reads ids, istack
  {
    && 0 <= n < ids.Length && n <= MAX_IDS && ids[0] == n
    && istack.Length == STACK_SLOTS && StackHolds(istack, jstack, pending)
    && SortInvariant(ids[..], n, pending, l, ir)
  }

  /** Sorts a small segment and takes the next one from the stack. */
  method FinishSegment(ids: array<nat>, ghost n: int, istack: array<int>, jstack: int, l: int, ir: int,
                       ghost pending: seq<Segment>)
    returns (done: bool, jstack': int, l': int, ir': int)
    requires Looping(ids, n, istack, jstack, l, ir, pending) && ir - l < SMALL
    modifies ids
    ensures ids[0] == n && Permuted(old(ids[..]), ids[..], 1, n)
    ensures done ==> Descending(ids[..], 1, n)
    ensures !done ==> |pending| > 0 && pending[..|pending| - 1] + [Segment(l', ir')] == pending
                            && Looping(ids, n, istack, jstack', l', ir', pending[..|pending| - 1])
  {
    SortSmall(ids, l, ir, n, pending);
    done := jstack == 0;
    if done {
      return true, 0, l, ir;
    }
    ir' := istack[jstack];
    l' := istack[jstack - 1];
    jstack' := jstack - 2;
    PopLast(pending, Segment(l', ir'));
  }

  /** Splits a large segment: the smaller side comes next, the larger is pushed. */
  method SplitNext(ids: array<nat>, ghost n: int, istack: array<int>, jstack: int, l: int, ir: int,
                   ghost pending: seq<Segment>)
    returns (jstack': int, l': int, ir': int, ghost pending': seq<Segment>)
    requires Looping(ids, n, istack, jstack, l, ir, pending) && ir - l >= SMALL
    modifies ids, istack
    ensures ids[0] == n && Permuted(old(ids[..]), ids[..], 1, n)
    ensures Looping(ids, n, istack, jstack', l', ir', pending')
    ensures Work(pending' + [Segment(l', ir')]) < Work(pending + [Segment(l, ir)])
  {
    RoomToPush(pending, l, ir, n);
    var lo, hi;
    lo, hi, l', ir' := ChooseSides(ids, l, ir, n, pending);
    WorkSplit(pending, Segment(l, ir), Segment(lo, hi), Segment(l', ir'));
    pending' := pending + [Segment(lo, hi)];
    jstack' := Push(istack, jstack, lo, hi, pending);
  }

  lemma RoomToPush(pending: seq<Segment>, l: int, ir: int, n: int)
    requires Halving(pending + [Segment(l, ir)], n) && l + SMALL <= ir && n <= 0x4000_0000
    ensures 2 * |pending| + 2 < 64
  {
    assert (pending + [Segment(l, ir)])[|pending|].Size() == ir - l + 1;
    DepthBound(|pending|, ir - l + 1, n);
  }

  /** Partitions and picks the larger side lo..hi to push and the smaller to go on with. */
  method ChooseSides(ids: array<nat>, l: int, ir: int, ghost n: int, ghost pending: seq<Segment>)
    returns (lo: int, hi: int, l': int, ir': int)
    requires 0 <= n < ids.Length && n <= MAX_IDS && l + SMALL <= ir
    requires SortInvariant(ids[..], n, pending, l, ir)
    modifies ids
    ensures ids[0] == old(ids[0]) && Permuted(old(ids[..]), ids[..], 1, n)
    ensures SortInvariant(ids[..], n, pending + [Segment(lo, hi)], l', ir')
    ensures Segment(lo, hi).Size() + Segment(l', ir').Size() < Segment(l, ir).Size()
  {
    var i, j := PartitionSegment(ids, l, ir, n, pending);
    if ir - i + 1 >= j - l {
      return i, ir, l, j - 1;
    } else {
      return l, j - 1, i, ir;
    }
  }

  method Sort(ids: array<nat>)
    requires 0 < ids.Length && ids[0] < ids.Length && ids[0] <= 0x4000_0000
    modifies ids
    ensures ids[0] == old(ids[0])
    ensures Permuted(old(ids[..]), ids[..], 1, ids[0]) && Descending(ids[..], 1, ids[0])
  {
    var istack := new int[STACK_SLOTS];
    ghost var n := ids[0];
    ghost var s := ids[..];
    ghost var pending: seq<Segment> := [];
    var ir: int := ids[0];
    var l, jstack := 1, 0;
    WholeSegment(s, n);
    while true
      invariant fresh(istack) && Looping(ids, n, istack, jstack, l, ir, pending)
      invariant Permuted(s, ids[..], 1, n)
      decreases Work(pending + [Segment(l, ir)])
    {
      ghost var t := ids[..];
      if ir - l < SMALL {
        WorkPush(pending, Segment(l, ir));
        var done;
        done, jstack, l, ir := FinishSegment(ids, n, istack, jstack, l, ir, pending);
        PermutedTrans(s, t, ids[..], 1, n);
        if done {
          break;
        }
        pending := pending[..|pending| - 1];
      } else {
        jstack, l, ir, pending := SplitNext(ids, n, istack, jstack, l, ir, pending);
        PermutedTrans(s, t, ids[..], 1, n);
      }
    }
  }

  /** What Sort leaves, spelled out: a larger id never stands behind a smaller one, each id
      stands as often as before, and nothing behind the list has moved. */
  lemma SortLeaves(s: seq<nat>, t: seq<nat>)
    requires 0 < |s| && s[0] < |s| && Permuted(s, t, 1, s[0]) && Descending(t, 1, s[0])
    ensures |t| == |s| && t[0] == s[0]
    ensures forall p, q :: 1 <= p < q <= t[0] ==> t[p] >= t[q]
    ensures multiset(t[1..t[0] + 1]) == multiset(s[1..s[0] + 1])
    ensures forall p :: s[0] < p < |s| ==> t[p] == s[p]
  {
    assert t[..1][0] == s[..1][0];
    forall p | s[0] < p < |s|
      ensures t[p] == s[p]
    {
      assert t[p] == t[s[0] + 1..][p - s[0] - 1];
    }
  }

  method Push(istack: array<int>, jstack: int, lo: int, hi: int, ghost pending: seq<Segment>) returns (top: int)
    requires StackHolds(istack, jstack, pending) && jstack + 2 < istack.Length
    modifies istack
    ensures top == jstack + 2 && StackHolds(istack, top, pending + [Segment(lo, hi)])
  {
    top := jstack + 2;
    istack[top] := hi;
    istack[top - 1] := lo;
  }

  lemma PopLast(pending: seq<Segment>, top: Segment)
    requires |pending| > 0 && top == pending[|pending| - 1]
    ensures pending[..|pending| - 1] + [top] == pending
  {
  }
}
