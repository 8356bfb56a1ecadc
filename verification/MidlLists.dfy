/** Binary search, in-place merge and insertion on LMDB's ID lists.  Element 0 is
    the count (of an ID2 list, its mid), and the ids follow it. */
module MidlLists {

  const MAX_ID: nat := 0xffff_ffff_ffff_ffff
  const UM_MAX: nat := 0x1_ffff

  /** CMP(x, y) */
  function Compare(x: nat, y: nat): int {
    if x < y then -1 else if x > y then 1 else 0
  }

  // ---------- IDL: descending ids ----------

  ghost predicate Descending(s: seq<nat>) {
    forall p, q :: 0 <= p < q < |s| ==> s[p] >= s[q]
  }

  /** The ids of a list, without its count. */
  function Ids(a: seq<nat>): seq<nat>
    requires |a| > 0 && a[0] < |a|
  {
    a[1..a[0] + 1]
  }

  /** mdb_midl_search: the first position whose id is not greater than the given one. */
  method Search(ids: array<nat>, id: nat) returns (cursor: nat)
    requires ids.Length > 0 && ids[0] < ids.Length
    requires forall p, q :: 1 <= p < q <= ids[0] ==> ids[p] > ids[q]
    ensures 1 <= cursor <= ids[0] + 1
    ensures forall p :: 1 <= p < cursor ==> ids[p] > id
    ensures forall p :: cursor <= p <= ids[0] ==> ids[p] <= id
  {
    var base, val, n := 0, 0, ids[0];
    cursor := 1;
    while 0 < n
      invariant 0 <= base && 0 <= n && base + n <= ids[0]
      invariant forall p :: 1 <= p <= base ==> ids[p] > id
      invariant forall p :: base + n < p <= ids[0] ==> ids[p] < id
      invariant if val > 0 then cursor == base else if val < 0 then cursor == base + n + 1
                else cursor == 1 && base == 0
    {
      var pivot := n / 2;
      cursor := base + pivot + 1;
      val := Compare(ids[cursor], id);
      if val < 0 {
        n := pivot;
      } else if val > 0 {
        base := cursor;
        n := n - (pivot + 1);
      } else {
        return;
      }
    }
    if val > 0 {
      cursor := cursor + 1;
    }
  }

  /** The merge of two descending lists, built from its end: the smaller last id goes
      last, and of two equal ids the second list's. */
  function Merge(A: seq<nat>, B: seq<nat>): seq<nat>
    decreases |A| + |B|
  {
    if |B| == 0 then A
    else if |A| > 0 && A[|A| - 1] < B[|B| - 1] then Merge(A[..|A| - 1], B) + [A[|A| - 1]]
    else Merge(A, B[..|B| - 1]) + [B[|B| - 1]]
  }

  lemma {:induction false} MergeKeepsIds(A: seq<nat>, B: seq<nat>)
    ensures multiset(Merge(A, B)) == multiset(A) + multiset(B)
    decreases |A| + |B|
  {
    if |B| == 0 {
    } else {
      var b := B[|B| - 1];
      if |A| > 0 && A[|A| - 1] < b {
        MergeKeepsIds(A[..|A| - 1], B);
        LastId(A);
      } else {
        MergeKeepsIds(A, B[..|B| - 1]);
        LastId(B);
      }
    }
  }

  lemma LastId(s: seq<nat>)
    requires |s| > 0
    ensures multiset(s) == multiset(s[..|s| - 1]) + multiset{s[|s| - 1]}
  {
    assert s == s[..|s| - 1] + [s[|s| - 1]];
  }

  lemma {:induction false} MergeDescends(A: seq<nat>, B: seq<nat>)
    requires Descending(A) && Descending(B)
    ensures Descending(Merge(A, B))
    decreases |A| + |B|
  {
    if |B| == 0 {
    } else {
      var b := B[|B| - 1];
      if |A| > 0 && A[|A| - 1] < b {
        MergeDescends(A[..|A| - 1], B);
        MergeAbove(A[..|A| - 1], B, A[|A| - 1]);
      } else {
        MergeDescends(A, B[..|B| - 1]);
        MergeAbove(A, B[..|B| - 1], b);
      }
    }
  }

  /** What bounds both lists bounds their merge. */
  lemma MergeAbove(A: seq<nat>, B: seq<nat>, x: nat)
    requires forall p :: 0 <= p < |A| ==> A[p] >= x
    requires forall p :: 0 <= p < |B| ==> B[p] >= x
    ensures forall p :: 0 <= p < |Merge(A, B)| ==> Merge(A, B)[p] >= x
  {
    var m := Merge(A, B);
    MergeKeepsIds(A, B);
    forall p | 0 <= p < |m|
      ensures m[p] >= x
    {
      assert m[p] in multiset(m);
      assert m[p] in A || m[p] in B;
    }
  }

  /** mdb_midl_xmerge: merges backward into the free room behind idl.  Slot 0 is the
      greatest id meanwhile, so the scan of idl needs no bound. */
  method XMerge(idl: array<nat>, merge: array<nat>)
    requires idl.Length > 0 && merge.Length > 0 && idl != merge
    requires merge[0] < merge.Length && idl[0] + merge[0] < idl.Length
    requires forall p :: 0 <= p < merge.Length ==> merge[p] <= 0xffff_ffff_ffff_ffff
    modifies idl
    ensures idl[0] == old(idl[0]) + merge[0]
    ensures Ids(idl[..]) == Merge(old(Ids(idl[..])), Ids(merge[..]))
    ensures forall p :: idl[0] < p < idl.Length ==> idl[p] == old(idl[p])
  {
    ghost var A, B := Ids(idl[..]), Ids(merge[..]);
    ghost var tail: seq<nat> := [];
    var i, j := merge[0], idl[0];
    var k, total := i + j, i + j;
    idl[0] := MAX_ID;
    assert A[..j] == A && B[..i] == B;
    while i > 0
      invariant 0 <= i <= merge[0] && k == i + j
      invariant Merging(idl[..], A, B, tail, j, i, total)
      invariant forall p :: total < p < idl.Length ==> idl[p] == old(idl[p])
    {
      var mergeId: nat := merge[i];
      i := i - 1;
      assert mergeId == B[i];
      j, k, tail := MoveSmaller(idl, mergeId, j, k, A, B, tail, i, total);
      PlaceMerge(idl, mergeId, k, A, B, tail, j, i, total);
      tail := [mergeId] + tail;
      k := k - 1;
    }
    MergeDone(idl[..], A, B, tail, j, total);
    idl[0] := total;
  }

  lemma MergeDone(s: seq<nat>, A: seq<nat>, B: seq<nat>, tail: seq<nat>, j: int, total: int)
    requires Merging(s, A, B, tail, j, 0, total)
    ensures s[1..total + 1] == Merge(A, B)
  {
    assert s[1..total + 1] == s[1..j + 1] + s[j + 1..total + 1];
  }

  method PlaceMerge(idl: array<nat>, mergeId: nat, k: nat, ghost A: seq<nat>, ghost B: seq<nat>,
                    ghost tail: seq<nat>, ghost j: nat, ghost i: nat, ghost total: nat)
    requires i < |B| && mergeId == B[i] && k == i + 1 + j < idl.Length && idl[j] >= mergeId
    requires Merging(idl[..], A, B, tail, j, i + 1, total)
    modifies idl
    ensures Merging(idl[..], A, B, [mergeId] + tail, j, i, total)
    ensures forall p :: total < p < idl.Length ==> idl[p] == old(idl[p])
  {
    TakeMerge(idl[..], A, B, tail, j, i, total);
    idl[k] := mergeId;
    assert idl[..] == old(idl[..])[k := mergeId];
  }

  method MoveOld(idl: array<nat>, oldId: nat, k: nat, ghost A: seq<nat>, ghost B: seq<nat>,
                 ghost tail: seq<nat>, ghost j: nat, ghost i: nat, ghost total: nat)
    requires i < |B| && k == i + 1 + j < idl.Length && oldId == idl[j] < B[i] <= MAX_ID
    requires Merging(idl[..], A, B, tail, j, i + 1, total)
    modifies idl
    ensures j > 0 && Merging(idl[..], A, B, [oldId] + tail, j - 1, i + 1, total)
    ensures forall p :: total < p < idl.Length ==> idl[p] == old(idl[p])
  {
    TakeOld(idl[..], A, B, tail, j, i + 1, total);
    idl[k] := oldId;
    assert idl[..] == old(idl[..])[k := oldId];
  }

  /** The scan of idl: ids below the next merge id move up, each to a slot above every
      unread one. */
  method MoveSmaller(idl: array<nat>, mergeId: nat, j0: nat, k0: nat, ghost A: seq<nat>, ghost B: seq<nat>,
                     ghost tail0: seq<nat>, ghost i: nat, ghost total: nat)
    returns (j: nat, k: nat, ghost tail: seq<nat>)
    requires i < |B| && mergeId == B[i] <= MAX_ID && k0 == i + 1 + j0
    requires Merging(idl[..], A, B, tail0, j0, i + 1, total)
    modifies idl
    ensures k == i + 1 + j < idl.Length && idl[j] >= mergeId && Merging(idl[..], A, B, tail, j, i + 1, total)
    ensures forall p :: total < p < idl.Length ==> idl[p] == old(idl[p])
  {
    j, k, tail := j0, k0, tail0;
    var oldId: nat := idl[j];
    while oldId < mergeId
      invariant k == i + 1 + j && oldId == idl[j]
      invariant Merging(idl[..], A, B, tail, j, i + 1, total)
      invariant forall p :: total < p < idl.Length ==> idl[p] == old(idl[p])
      decreases j
    {
      MoveOld(idl, oldId, k, A, B, tail, j, i, total);
      tail := [oldId] + tail;
      k := k - 1;
      j := j - 1;
      oldId := idl[j];
    }
  }

  /** The first j ids of A and i of B are unread; what was read stands behind slot
      i + j, and is the end of the merge. */
  ghost predicate Merging(s: seq<nat>, A: seq<nat>, B: seq<nat>, tail: seq<nat>, j: int, i: int, total: int) {
    && 0 <= j <= |A| && 0 <= i <= |B| && total == |A| + |B| < |s|
    && s[0] == MAX_ID && s[1..j + 1] == A[..j] && s[i + j + 1..total + 1] == tail
    && Merge(A[..j], B[..i]) + tail == Merge(A, B)
  }

  lemma TakeOld(s: seq<nat>, A: seq<nat>, B: seq<nat>, tail: seq<nat>, j: int, i: int, total: int)
    requires Merging(s, A, B, tail, j, i, total) && i > 0 && s[j] < B[i - 1] <= MAX_ID
    ensures j > 0 && Merging(s[i + j := s[j]], A, B, [s[j]] + tail, j - 1, i, total)
  {
    assert s[j] == s[1..j + 1][j - 1] == A[j - 1];
    SlotWritten(s, i + j, s[j], j, total);
    assert s[1..j] == s[1..j + 1][..j - 1] && A[..j][..j - 1] == A[..j - 1];
    assert Merge(A[..j], B[..i]) == Merge(A[..j - 1], B[..i]) + [s[j]];
  }

  lemma TakeMerge(s: seq<nat>, A: seq<nat>, B: seq<nat>, tail: seq<nat>, j: int, i: int, total: int)
    requires Merging(s, A, B, tail, j, i + 1, total) && 0 <= i < |B| && s[j] >= B[i]
    ensures Merging(s[i + 1 + j := B[i]], A, B, [B[i]] + tail, j, i, total)
  {
    assert j > 0 ==> s[j] == s[1..j + 1][j - 1] == A[j - 1];
    SlotWritten(s, i + 1 + j, B[i], j + 1, total);
    assert B[..i + 1][..i] == B[..i];
    assert Merge(A[..j], B[..i + 1]) == Merge(A[..j], B[..i]) + [B[i]];
  }

  /** Writing slot k lengthens what stands merged behind it by one in front. */
  lemma SlotWritten(s: seq<nat>, k: int, x: nat, e: int, total: int)
    requires 1 <= e <= k <= total < |s|
    ensures s[k := x][k..total + 1] == [x] + s[k + 1..total + 1]
    ensures s[k := x][1..e] == s[1..e]
  {
  }

  // ---------- ID2L: ascending id/pointer pairs ----------

  datatype Id2 = Id2(mid: nat, mptr: nat)

  function Pairs(a: seq<Id2>): seq<Id2>
    requires |a| > 0 && a[0].mid < |a|
  {
    a[1..a[0].mid + 1]
  }

  /** mdb_mid2l_search: the first position whose id is not less than the given one. */
  method Search2(ids: array<Id2>, id: nat) returns (cursor: nat)
    requires ids.Length > 0 && ids[0].mid < ids.Length
    requires forall p, q :: 1 <= p < q <= ids[0].mid ==> ids[p].mid < ids[q].mid
    ensures 1 <= cursor <= ids[0].mid + 1
    ensures forall p :: 1 <= p < cursor ==> ids[p].mid < id
    ensures forall p :: cursor <= p <= ids[0].mid ==> ids[p].mid >= id
  {
    var base, val, n := 0, 0, ids[0].mid;
    cursor := 1;
    while 0 < n
      invariant 0 <= base && 0 <= n && base + n <= ids[0].mid
      invariant forall p :: 1 <= p <= base ==> ids[p].mid < id
      invariant forall p :: base + n < p <= ids[0].mid ==> ids[p].mid > id
      invariant if val > 0 then cursor == base else if val < 0 then cursor == base + n + 1
                else cursor == 1 && base == 0
    {
      var pivot := n / 2;
      cursor := base + pivot + 1;
      val := Compare(id, ids[cursor].mid);
      if val < 0 {
        n := pivot;
      } else if val > 0 {
        base := cursor;
        n := n - (pivot + 1);
      } else {
        return;
      }
    }
    if val > 0 {
      cursor := cursor + 1;
    }
  }

  /** mdb_mid2l_insert: -1 for an id already there, -2 for a full list, else the list
      gains exactly the new pair, at its place in strictly ascending order. */
  method Insert2(ids: array<Id2>, id: Id2) returns (rc: int)
    requires ids.Length > 0 && ids[0].mid < ids.Length
    requires ids[0].mid < 0x1_ffff ==> ids[0].mid + 1 < ids.Length
    requires forall p, q :: 1 <= p < q <= ids[0].mid ==> ids[p].mid < ids[q].mid
    modifies ids
    ensures rc == (if exists p :: 1 <= p <= old(ids[0].mid) && old(ids[p].mid) == id.mid then -1
                   else if old(ids[0].mid) >= 0x1_ffff then -2 else 0)
    ensures rc != 0 ==> ids[..] == old(ids[..])
    ensures rc == 0 ==> ids[0] == old(ids[0]).(mid := old(ids[0].mid) + 1)
    ensures rc == 0 ==> forall p, q :: 1 <= p < q <= ids[0].mid ==> ids[p].mid < ids[q].mid
    ensures rc == 0 ==> multiset(Pairs(ids[..])) == multiset(old(Pairs(ids[..]))) + multiset{id}
  {
    var x := Search2(ids, id.mid);
    if x <= ids[0].mid && ids[x].mid == id.mid {
      return -1;
    }
    forall p | 1 <= p <= ids[0].mid
      ensures ids[p].mid != id.mid
    {
      assert p > x ==> ids[x].mid < ids[p].mid;
    }
    if ids[0].mid >= UM_MAX {
      return -2;
    }
    ghost var was := ids[..];
    ShiftIn(ids, x, id);
    ShiftedPairs(was, ids[..], x, id);
    rc := 0;
  }

  lemma ShiftedPairs(s: seq<Id2>, t: seq<Id2>, x: nat, id: Id2)
    requires |s| == |t| > 0 && 1 <= x <= s[0].mid + 1 < |s| && t[0] == s[0].(mid := s[0].mid + 1)
    requires forall p :: 1 <= p < x ==> t[p] == s[p]
    requires t[x] == id
    requires forall p :: x < p <= s[0].mid + 1 ==> t[p] == s[p - 1]
    ensures multiset(Pairs(t)) == multiset(Pairs(s)) + multiset{id}
  {
    var a, b := s[1..x], s[x..s[0].mid + 1];
    assert Pairs(s) == a + b;
    assert Pairs(t) == a + [id] + b;
  }

  /** Opens slot x by moving the pairs from x on up by one, and fills it. */
  method ShiftIn(ids: array<Id2>, x: nat, id: Id2)
    requires ids.Length > 0 && 1 <= x <= ids[0].mid + 1 < ids.Length
    modifies ids
    ensures ids[0] == old(ids[0]).(mid := old(ids[0].mid) + 1)
    ensures forall p :: 1 <= p < x ==> ids[p] == old(ids[p])
    ensures ids[x] == id
    ensures forall p :: x < p <= old(ids[0].mid) + 1 ==> ids[p] == old(ids[p - 1])
  {
    ids[0] := ids[0].(mid := ids[0].mid + 1);
    var i := ids[0].mid;
    while i > x
      invariant x <= i <= ids[0].mid
      invariant ids[0] == old(ids[0]).(mid := old(ids[0].mid) + 1)
      invariant forall p :: 1 <= p <= i && p <= old(ids[0].mid) ==> ids[p] == old(ids[p])
      invariant forall p :: i < p <= ids[0].mid ==> ids[p] == old(ids[p - 1])
    {
      ids[i] := ids[i - 1];
      i := i - 1;
    }
    ids[x] := id;
  }
}
