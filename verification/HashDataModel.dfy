/** The simple map that the hash data store stands for, and what one insert or
    merge does to it: hash -> first writer's entropy and label, stored count, and
    a sub-count per source. */
module HashDataModel {
  import opened ByteStrings
  import opened HashDataRecords

  datatype Option<T> = None | Some(value: T)

  /** stored is the count as its four bytes hold it; Count is how it reads back. */
  datatype Entry = Entry(kEntropy: nat, blockLabel: ByteString, stored: nat, subs: map<nat, nat>)
  {
    /** A 64-bit entropy, a short label, and clipped counts of positive source ids.
        A single source's count is its sub-count. */
    ghost predicate Ok() {
      && kEntropy < TWO_TO_THE_64 && |blockLabel| <= MAX_LABEL_SIZE
      && stored < TWO_TO_THE_32 && |subs| > 0
      && (forall s :: s in subs ==> 0 < s < TWO_TO_THE_64 && subs[s] < 0x1_0000)
      && (|subs| == 1 ==> forall s :: s in subs ==> subs[s] == stored)
    }

    function Count(): U64 {
      SignExtend(Clip4(stored))
    }
  }

  /** a + b on uint64_t. */
  function Sum64(a: nat, b: nat): nat {
    if a + b < TWO_TO_THE_64 then a + b else a + b - TWO_TO_THE_64
  }

  /** add2 and add4: the sum is clipped, but after it has wrapped at 64 bits. */
  function Add2(a: nat, b: nat): nat {
    Clip2(Sum64(a, b))
  }

  function Add4(a: nat, b: nat): nat {
    Clip4(Sum64(a, b))
  }

  function Truncate(blockLabel: ByteString): (r: ByteString)
    ensures |r| <= MAX_LABEL_SIZE && r <= blockLabel && |r| == if |blockLabel| <= 10 then |blockLabel| else 10
  {
    if |blockLabel| > MAX_LABEL_SIZE then blockLabel[..MAX_LABEL_SIZE] else blockLabel
  }

  function Lookup<V>(m: map<ByteString, V>, h: ByteString): Option<V> {
    if h in m then Some(m[h]) else None
  }

  /** The entry an insert leaves behind; the label is already truncated. */
  function AfterInsert(prev: Option<Entry>, kEntropy: nat, blockLabel: ByteString, sourceId: nat): Entry {
    match prev
    case None => Entry(kEntropy, blockLabel, 1, map[sourceId := 1])
    case Some(e) =>
      if sourceId in e.subs then
        var sub := Add2(e.subs[sourceId], 1);
        var stored := if |e.subs| == 1 then sub else Add4(e.Count(), 1);
        e.(stored := stored, subs := e.subs[sourceId := sub])
      else
        e.(stored := Add4(e.Count(), 1), subs := e.subs[sourceId := 1])
  }

  /** The entry a merge leaves behind; the label is already truncated. */
  function AfterMerge(prev: Option<Entry>, kEntropy: nat, blockLabel: ByteString, sourceId: nat, subCount: nat): Entry {
    match prev
    case None => Entry(kEntropy, blockLabel, Clip2(subCount), map[sourceId := Clip2(subCount)])
    case Some(e) =>
      if sourceId in e.subs then e
      else e.(stored := Add4(e.Count(), subCount), subs := e.subs[sourceId := Clip2(subCount)])
  }

  /** Whether the caller's data differs from the first writer's. */
  predicate Mismatched(prev: Option<Entry>, kEntropy: nat, blockLabel: ByteString) {
    prev.Some? && (kEntropy != prev.value.kEntropy || blockLabel != prev.value.blockLabel)
  }

  lemma SingleSource(subs: map<nat, nat>, s: nat, t: nat)
    requires |subs| == 1 && s in subs && t in subs
    ensures s == t
  {
    var ks := subs.Keys;
    assert |ks - {s}| == 0;
    assert t !in ks - {s};
  }

  lemma AddedSource(subs: map<nat, nat>, s: nat, c: nat)
    ensures s in subs ==> |subs[s := c]| == |subs|
    ensures s !in subs ==> |subs[s := c]| == |subs| + 1
  {
    assert subs[s := c].Keys == subs.Keys + {s};
    assert |subs[s := c].Keys| == |subs.Keys + {s}|;
    assert s in subs ==> subs.Keys + {s} == subs.Keys;
  }

  lemma AfterInsertOk(prev: Option<Entry>, kEntropy: U64, blockLabel: ByteString, sourceId: U64)
    requires prev.Some? ==> prev.value.Ok()
    requires sourceId > 0 && |blockLabel| <= MAX_LABEL_SIZE
    ensures AfterInsert(prev, kEntropy, blockLabel, sourceId).Ok()
  {
    if prev.Some? {
      var e := prev.value;
      AddedSource(e.subs, sourceId, if sourceId in e.subs then Add2(e.subs[sourceId], 1) else 1);
      if |e.subs| == 1 && sourceId in e.subs {
        forall s | s in e.subs
          ensures s == sourceId
        {
          SingleSource(e.subs, s, sourceId);
        }
      }
    }
  }

  lemma AfterMergeOk(prev: Option<Entry>, kEntropy: U64, blockLabel: ByteString, sourceId: U64, subCount: U64)
    requires prev.Some? ==> prev.value.Ok()
    requires sourceId > 0 && |blockLabel| <= MAX_LABEL_SIZE
    ensures AfterMerge(prev, kEntropy, blockLabel, sourceId, subCount).Ok()
  {
    if prev.Some? {
      AddedSource(prev.value.subs, sourceId, Clip2(subCount));
    }
  }
}
