/** lmdb_hash_data_manager_t over lmdb_hash_data_support: insert, merge, find and
    find_count on byte records under a cursor, proved against the simple map. */
module HashDataManager {
  import opened ByteStrings
  import opened Lmdb
  import opened HashDataRecords
  import opened HashDataModel
  import opened HashDataRepresentation

  /** The hash data counters of lmdb_changes_t. */
  class Changes {
    var inserted: nat
    var merged: nat
    var mergedSame: nat
    var mismatchedData: nat
    var mismatchedSubCount: nat

    constructor ()
      ensures inserted == merged == mergedSame == mismatchedData == mismatchedSubCount == 0
    {
      inserted, merged, mergedSame, mismatchedData, mismatchedSubCount := 0, 0, 0, 0, 0;
    }
  }

  // ---------- record operations at the cursor ----------

  /** Stores the first |context.data| bytes of the buffer over the current record:
      the record keeps its size, so bytes past the encoding are left to chance. */
  method ReplaceRecord(context: Context, key: ByteString, buf: array<Byte>, size: nat, matchSize: bool)
    requires context.Loaded() && context.key == key
    requires size <= |context.data| <= buf.Length && (matchSize ==> size == |context.data|)
    requires Sorted(context.db[context.at := Pair(key, buf[..|context.data|])])
    modifies context
    ensures context.db == old(context.db)[old(context.at) := Pair(key, buf[..|old(context.data)|])]
    ensures context.Loaded() && context.at == old(context.at) && context.key == key
    ensures context.data == buf[..|old(context.data)|]
  {
    context.PutCurrent(key, buf[..|context.data|]);
  }

  method ReplaceType1(context: Context, key: ByteString, kEntropy: U64, blockLabel: ByteString,
                      sourceId: U64, subCount: U64)
    requires context.Loaded() && context.key == key && |blockLabel| <= MAX_LABEL_SIZE
    requires |Type1(kEntropy, blockLabel, sourceId, subCount)| == |context.data|
    requires Sorted(context.db[context.at := Pair(key, Type1(kEntropy, blockLabel, sourceId, subCount))])
    modifies context
    ensures context.db == old(context.db)[old(context.at) :=
                                          Pair(key, Type1(kEntropy, blockLabel, sourceId, subCount))]
  {
    var buf := new Byte[TYPE1_MAX_SIZE];
    var size := EncodeType1(kEntropy, blockLabel, sourceId, subCount, buf);
    ReplaceRecord(context, key, buf, size, true);
  }

  /** Overwrites a record of either type by a Type 2 record that may be shorter. */
  method ReplaceType2(context: Context, key: ByteString, kEntropy: U64, blockLabel: ByteString, count: U64)
    requires context.Loaded() && context.key == key && |blockLabel| <= MAX_LABEL_SIZE
    requires |Type2(kEntropy, blockLabel, count)| <= |context.data| <= TYPE1_MAX_SIZE
    requires forall d: ByteString :: |d| == |context.data| && d[0] == 0 ==>
                                       Sorted(context.db[context.at := Pair(key, d)])
    modifies context
    ensures context.Loaded() && context.at == old(context.at) && context.key == key
    ensures |context.data| <= TYPE1_MAX_SIZE && IsHeader(context.data, kEntropy, blockLabel, count)
    ensures Sorted(context.db)
    ensures context.db == old(context.db)[old(context.at) := Pair(key, context.data)]
  {
    var buf := new Byte[TYPE1_MAX_SIZE];
    var size := EncodeType2(kEntropy, blockLabel, count, buf);
    ghost var d := buf[..|context.data|];
    assert d[..size] == Type2(kEntropy, blockLabel, count);
    assert d[0] == d[..size][0] == 0;
    ReplaceRecord(context, key, buf, size, false);
  }

  method ReplaceType3(context: Context, key: ByteString, sourceId: U64, subCount: U64)
    requires context.Loaded() && context.key == key
    requires |Type3(sourceId, subCount)| == |context.data|
    requires Sorted(context.db[context.at := Pair(key, Type3(sourceId, subCount))])
    modifies context
    ensures context.db == old(context.db)[old(context.at) := Pair(key, Type3(sourceId, subCount))]
  {
    Type3Size(sourceId, subCount);
    var buf := new Byte[TYPE3_MAX_SIZE];
    var size := EncodeType3(sourceId, subCount, buf);
    ReplaceRecord(context, key, buf, size, true);
  }

  /** write_record: the pair must be new. */
  method WriteRecord(context: Context, key: ByteString, data: ByteString, ghost rs: set<ByteString>)
    requires Sorted(context.db) && Holds(context.db, key, rs) && data !in rs && IsKey(key) && |data| <= MAX_KEY_SIZE
    modifies context
    ensures Sorted(context.db) && Holds(context.db, key, rs + {data})
    ensures SameElsewhere(old(context.db), context.db, key)
  {
    HoldsInserted(context.db, key, data, rs);
    var added := context.PutNoDupData(key, data);
    assert added;
  }

  method NewType1(context: Context, key: ByteString, kEntropy: U64, blockLabel: ByteString,
                  sourceId: U64, subCount: U64)
    requires Sorted(context.db) && Holds(context.db, key, {}) && |blockLabel| <= MAX_LABEL_SIZE && IsKey(key)
    modifies context
    ensures Sorted(context.db)
    ensures Holds(context.db, key, {Type1(kEntropy, blockLabel, sourceId, subCount)})
    ensures SameElsewhere(old(context.db), context.db, key)
  {
    var buf := new Byte[TYPE1_MAX_SIZE];
    var size := EncodeType1(kEntropy, blockLabel, sourceId, subCount, buf);
    WriteRecord(context, key, buf[..size], {});
  }

  method NewType3(context: Context, key: ByteString, sourceId: U64, subCount: U64, ghost rs: set<ByteString>)
    requires Sorted(context.db) && Holds(context.db, key, rs) && Type3(sourceId, subCount) !in rs && IsKey(key)
    modifies context
    ensures Sorted(context.db) && Holds(context.db, key, rs + {Type3(sourceId, subCount)})
    ensures SameElsewhere(old(context.db), context.db, key)
  {
    var buf := new Byte[TYPE3_MAX_SIZE];
    var size := EncodeType3(sourceId, subCount, buf);
    WriteRecord(context, key, buf[..size], rs);
  }

  /** The cursor stands on the first record of h, whose records are those of e. */
  ghost predicate AtFirst(context: Context, h: ByteString, e: Entry, header: ByteString)
    reads context
  {
    && Sorted(context.db) && context.Loaded() && context.key == h && context.at == Lower(context.db, Start(h))
    && e.Ok() && HeaderOk(e, header) && Holds(context.db, h, Records(e, header)) && IsKey(h)
    && (|e.subs| == 1 ==> forall s :: s in e.subs ==> context.data == Type1Of(e, s))
    && (|e.subs| > 1 ==> context.data == header)
  }

  /** Walks from the Type 2 record to the Type 3 record of a source; when there is
      none the cursor is back on the Type 2 record. */
  method CursorToType3(context: Context, sourceId: U64, ghost h: ByteString, ghost e: Entry, ghost header: ByteString)
    returns (found: bool, subCount: U64)
    requires AtFirst(context, h, e, header) && |e.subs| > 1
    modifies context`at, context`key, context`data
    ensures found <==> sourceId in e.subs
    ensures found ==> context.Loaded() && context.key == h && subCount == e.subs[sourceId]
                      && context.data == Type3(sourceId, e.subs[sourceId])
    ensures !found ==> AtFirst(context, h, e, header)
  {
    ghost var first := context.at;
    while true
      invariant context.Loaded() && context.key == h && first <= context.at
      invariant forall i :: first < i <= context.at ==>
                              context.db[i].key == h && context.db[i].data != Type3OrEmpty(e, sourceId)
      decreases |context.db| - context.at
    {
      var more := context.NextDup();
      if more {
        ghost var s := SourceAt(context.db, first, context.at, h, e, header);
        var existingSourceId, existingSubCount := DecodeType3(context.data, s, e.subs[s]);
        if existingSourceId == sourceId {
          return true, existingSubCount;
        }
        if sourceId in e.subs && context.data == Type3(sourceId, e.subs[sourceId]) {
          Type3Injective(sourceId, e.subs[sourceId], s, e.subs[s]);
        }
      } else {
        NoSourceLeft(context.db, first, context.at, h, e, header, sourceId);
        HeaderIsFirst(context.db, h, e, header);
        context.FirstDup();
        return false, 0;
      }
    }
  }

  ghost function Type3OrEmpty(e: Entry, s: nat): ByteString {
    if s in e.subs then Type3(s, e.subs[s]) else []
  }

  lemma SourceAt(db: seq<Pair>, first: nat, at: nat, h: ByteString, e: Entry, header: ByteString) returns (s: nat)
    requires Sorted(db) && first < at < |db| && db[first] == Pair(h, header) && db[at].key == h
    requires Holds(db, h, Records(e, header)) && |e.subs| > 1
    ensures s in e.subs && db[at].data == Type3(s, e.subs[s])
  {
    assert Pair(h, db[at].data) in db;
    if db[at].data == header {
      NoDuplicates(db, first, at);
    }
    s :| s in e.subs && db[at].data == Type3(s, e.subs[s]);
  }

  lemma NoSourceLeft(db: seq<Pair>, first: nat, at: nat, h: ByteString, e: Entry, header: ByteString, s: nat)
    requires Sorted(db) && first <= at < |db| && first == Lower(db, Start(h)) && e.Ok() && HeaderOk(e, header)
    requires Holds(db, h, Records(e, header)) && |e.subs| > 1 && db[first] == Pair(h, header)
    requires forall i :: first < i <= at ==> db[i].key == h && db[i].data != Type3OrEmpty(e, s)
    requires at + 1 < |db| ==> db[at + 1].key != h
    ensures s !in e.subs
  {
    if s in e.subs {
      var d := Type3(s, e.subs[s]);
      assert d in Type3s(e.subs);
      assert Pair(h, d) in db;
      HeaderNotType3(e, header);
      var j := RecordPastCursor(db, first, at, h, d);
      NextRecord(db, first, at, j);
    }
  }

  /** The records of a key that follow the cursor start right after it. */
  lemma NextRecord(db: seq<Pair>, first: nat, at: nat, j: nat)
    requires Sorted(db) && first <= at < j < |db| && db[first].key == db[j].key
    ensures db[at + 1].key == db[j].key
  {
    if at + 1 < j {
      KeyContiguous(db, first, at + 1, j);
    }
  }

  lemma RecordPastCursor(db: seq<Pair>, first: nat, at: nat, h: ByteString, d: ByteString) returns (j: nat)
    requires Sorted(db) && first <= at < |db| && first == Lower(db, Start(h))
    requires Pair(h, d) in db && db[first] != Pair(h, d)
    requires forall i :: first < i <= at ==> db[i] != Pair(h, d)
    ensures at < j < |db| && db[j] == Pair(h, d)
  {
    j :| 0 <= j < |db| && db[j] == Pair(h, d);
    KeyStart(db, h, j);
  }

  // ---------- the branches of insert and merge ----------

  /** Type 1 becomes a Type 2 header in the same slot plus two Type 3 records. */
  method SplitType1(context: Context, h: ByteString, kEntropy: U64, blockLabel: ByteString,
                    existingSourceId: U64, existingSubCount: U64, sourceId: U64, subCount: U64, count: U64,
                    ghost e: Entry, ghost header: ByteString)
    returns (ghost newHeader: ByteString)
    requires AtFirst(context, h, e, header)
    requires e.subs == map[existingSourceId := existingSubCount] && sourceId != existingSourceId && sourceId > 0
    requires kEntropy == e.kEntropy && blockLabel == e.blockLabel && count < TWO_TO_THE_32
    modifies context
    ensures var e' := e.(stored := count, subs := e.subs[sourceId := Clip2(subCount)]);
            && Sorted(context.db) && SameElsewhere(old(context.db), context.db, h)
            && Holds(context.db, h, Records(e', newHeader)) && HeaderOk(e', newHeader)
  {
    ghost var db0 := context.db;
    ghost var t1 := Type1Of(e, existingSourceId);
    Type2FitsType1(kEntropy, blockLabel, existingSourceId, existingSubCount, count);
    assert Records(e, header) == {t1};
    forall d: ByteString | |d| == |context.data|
      ensures Sorted(context.db[context.at := Pair(h, d)])
    {
      OnlyRecordFits(context.db, context.at, d);
    }
    ReplaceType2(context, h, kEntropy, blockLabel, count);
    newHeader := context.data;
    HoldsReplaced(db0, context.at, h, newHeader, {t1});
    ghost var db1 := context.db;
    assert Holds(db1, h, {newHeader}) by {
      assert {t1} - {t1} + {newHeader} == {newHeader};
    }
    FirstByte(kEntropy, blockLabel, existingSourceId, existingSubCount, count);
    NewType3(context, h, existingSourceId, existingSubCount, {newHeader});
    ghost var db2 := context.db;
    FirstByte(kEntropy, blockLabel, sourceId, subCount, count);
    SplitRecords(e, existingSourceId, existingSubCount, sourceId, subCount, count, newHeader);
    NewType3(context, h, sourceId, subCount, {newHeader} + {Type3(existingSourceId, existingSubCount)});
  }

  lemma SplitRecords(e: Entry, s: nat, c: nat, t: nat, d: nat, count: nat, header: ByteString)
    requires e.Ok() && e.subs == map[s := c] && s != t
    ensures var e' := e.(stored := count, subs := e.subs[t := Clip2(d)]);
            Records(e', header) == {header} + {Type3(s, c)} + {Type3(t, d)}
    ensures Type3(t, d) != Type3(s, c)
  {
    if Type3(t, d) == Type3(s, c) {
      Type3Injective(t, d, s, c);
    }
    AddedSource(e.subs, t, Clip2(d));
    Type3sUpdated(e.subs, t, Clip2(d));
    assert Type3(t, Clip2(d)) == Type3(t, d);
    assert Type3s(e.subs) == {Type3(s, c)};
  }

  /** What the existing record says, as insert and merge read it before branching. */
  method ReadType1(context: Context, ghost h: ByteString, ghost e: Entry, ghost header: ByteString)
    returns (kEntropy: U64, blockLabel: ByteString, sourceId: U64, subCount: U64)
    requires AtFirst(context, h, e, header) && |e.subs| == 1
    ensures kEntropy == e.kEntropy && blockLabel == e.blockLabel
    ensures e.subs == map[sourceId := subCount] && subCount == e.stored
  {
    ghost var s :| s in e.subs;
    kEntropy, blockLabel, sourceId, subCount := DecodeType1(context.data, e.kEntropy, e.blockLabel, s, e.subs[s]);
    forall t | t in e.subs
      ensures t == s
    {
      SingleSource(e.subs, s, t);
    }
  }

  method BumpType1(context: Context, h: ByteString, kEntropy: U64, blockLabel: ByteString, sourceId: U64,
                   subCount: U64, ghost e: Entry, ghost header: ByteString)
    requires AtFirst(context, h, e, header) && |e.subs| == 1 && e.subs.Keys == {sourceId}
    requires kEntropy == e.kEntropy && blockLabel == e.blockLabel
    modifies context
    ensures var e' := e.(stored := subCount, subs := map[sourceId := subCount]);
            && Sorted(context.db) && SameElsewhere(old(context.db), context.db, h)
            && Holds(context.db, h, Records(e', header))
  {
    ghost var t1, t1' := context.data, Type1(e.kEntropy, e.blockLabel, sourceId, subCount);
    assert Records(e, header) == {t1};
    OnlyRecordFits(context.db, context.at, t1');
    HoldsReplaced(context.db, context.at, h, t1', {t1});
    ReplaceType1(context, h, kEntropy, blockLabel, sourceId, subCount);
    ghost var e' := e.(stored := subCount, subs := map[sourceId := subCount]);
    assert Records(e', header) == {t1'} == {t1} - {t1} + {t1'};
  }

  lemma OneSource(subs: map<nat, nat>, s: nat, c: nat)
    requires subs.Keys == {s}
    ensures subs[s := c] == map[s := c]
  {
  }

  method InsertIntoType1(context: Context, h: ByteString, kEntropy: U64, blockLabel: ByteString, sourceId: U64,
                         changes: Changes, ghost e: Entry, ghost header: ByteString)
    returns (count: U64, ghost newHeader: ByteString)
    requires AtFirst(context, h, e, header) && |e.subs| == 1 && sourceId > 0
    modifies context, changes`mismatchedData
    ensures var e' := AfterInsert(Some(e), kEntropy, blockLabel, sourceId);
            && Sorted(context.db) && SameElsewhere(old(context.db), context.db, h)
            && Holds(context.db, h, Records(e', newHeader)) && HeaderOk(e', newHeader) && count == e'.stored
    ensures changes.mismatchedData == old(changes.mismatchedData)
              + (if kEntropy != e.kEntropy || blockLabel != e.blockLabel then 1 else 0)
  {
    var existingKEntropy, existingLabel, existingSourceId, existingSubCount := ReadType1(context, h, e, header);
    if kEntropy != existingKEntropy || blockLabel != existingLabel {
      changes.mismatchedData := changes.mismatchedData + 1;
    }
    if sourceId == existingSourceId {
      count := Add2(existingSubCount, 1);
      BumpType1(context, h, existingKEntropy, existingLabel, sourceId, count, e, header);
      newHeader := header;
      OneSource(e.subs, sourceId, count);
    } else {
      count := Add4(existingSubCount, 1);
      newHeader := SplitType1(context, h, existingKEntropy, existingLabel, existingSourceId, existingSubCount,
                              sourceId, 1, count, e, header);
    }
  }

  /** Rewrites the header of a hash with several sources to a new count. */
  method ReplaceHeader(context: Context, h: ByteString, count: U64, ghost e: Entry, ghost header: ByteString,
                       kEntropy: U64, blockLabel: ByteString)
    returns (ghost newHeader: ByteString)
    requires AtFirst(context, h, e, header) && |e.subs| > 1 && count < TWO_TO_THE_32
    requires kEntropy == e.kEntropy && blockLabel == e.blockLabel
    modifies context
    ensures SameElsewhere(old(context.db), context.db, h)
    ensures AtFirst(context, h, e.(stored := count), newHeader)
  {
    ghost var db0 := context.db;
    forall d: ByteString | |d| == |context.data| && d[0] == 0
      ensures Sorted(context.db[context.at := Pair(h, d)])
    {
      HeaderFits(context.db, context.at, e, header, d);
    }
    assert |Type2(kEntropy, blockLabel, count)| == |Type2(kEntropy, blockLabel, e.stored)| <= |header|;
    ReplaceType2(context, h, kEntropy, blockLabel, count);
    newHeader := context.data;
    HoldsReplaced(db0, context.at, h, newHeader, Records(e, header));
    HeaderNotType3(e, header);
    ghost var e' := e.(stored := count);
    assert Records(e', newHeader) == Records(e, header) - {header} + {newHeader};
    HeaderIsFirst(context.db, h, e', newHeader);
    NoDuplicates(context.db, context.at, Lower(context.db, Start(h)));
  }

  lemma HeaderNotType3(e: Entry, header: ByteString)
    requires e.Ok() && HeaderOk(e, header) && |e.subs| > 1
    ensures header !in Type3s(e.subs)
  {
    HeaderOpensWithZero(e, header);
    if header in Type3s(e.subs) {
      Type3OpensNonZero(e, header);
    }
  }

  method AddType3(context: Context, h: ByteString, sourceId: U64, subCount: U64, ghost e: Entry,
                  ghost header: ByteString)
    requires AtFirst(context, h, e, header) && |e.subs| > 1 && sourceId !in e.subs && sourceId > 0
    modifies context
    ensures var e' := e.(subs := e.subs[sourceId := Clip2(subCount)]);
            && Sorted(context.db) && SameElsewhere(old(context.db), context.db, h)
            && Holds(context.db, h, Records(e', header)) && HeaderOk(e', header)
  {
    Type3Member(e.subs, sourceId, subCount);
    HeaderOpensWithZero(e, header);
    FirstByte(0, [], sourceId, subCount, 0);
    NewType3(context, h, sourceId, subCount, Records(e, header));
    AddedSource(e.subs, sourceId, Clip2(subCount));
    Type3sUpdated(e.subs, sourceId, Clip2(subCount));
    assert Type3(sourceId, subCount) == Type3(sourceId, Clip2(subCount));
  }

  method BumpType3(context: Context, h: ByteString, sourceId: U64, subCount: U64, ghost e: Entry,
                   ghost header: ByteString)
    requires Sorted(context.db) && e.Ok() && HeaderOk(e, header) && |e.subs| > 1
    requires Holds(context.db, h, Records(e, header))
    requires context.Loaded() && context.key == h && sourceId in e.subs
    requires context.data == Type3(sourceId, e.subs[sourceId]) && subCount < 0x1_0000
    modifies context
    ensures var e' := e.(subs := e.subs[sourceId := subCount]);
            && Sorted(context.db) && SameElsewhere(old(context.db), context.db, h)
            && Holds(context.db, h, Records(e', header)) && HeaderOk(e', header)
  {
    var r, r' := context.data, Type3(sourceId, subCount);
    Type3Fits(context.db, context.at, e, header, sourceId, subCount);
    HoldsReplaced(context.db, context.at, h, r', Records(e, header));
    ReplaceType3(context, h, sourceId, subCount);
    AddedSource(e.subs, sourceId, subCount);
    Type3sUpdated(e.subs, sourceId, subCount);
    HeaderNotType3(e, header);
    assert r in Type3s(e.subs);
    ghost var e' := e.(subs := e.subs[sourceId := subCount]);
    assert Records(e', header) == Records(e, header) - {r} + {r'};
  }

  method InsertIntoType2(context: Context, h: ByteString, kEntropy: U64, blockLabel: ByteString, sourceId: U64,
                         changes: Changes, ghost e: Entry, ghost header: ByteString)
    returns (count: U64, ghost newHeader: ByteString)
    requires AtFirst(context, h, e, header) && |e.subs| > 1 && sourceId > 0
    modifies context, changes`mismatchedData
    ensures var e' := AfterInsert(Some(e), kEntropy, blockLabel, sourceId);
            && Sorted(context.db) && SameElsewhere(old(context.db), context.db, h)
            && Holds(context.db, h, Records(e', newHeader)) && HeaderOk(e', newHeader) && count == e'.stored
    ensures changes.mismatchedData == old(changes.mismatchedData)
              + (if kEntropy != e.kEntropy || blockLabel != e.blockLabel then 1 else 0)
  {
    var existingKEntropy, existingLabel, existingCount :=
      DecodeType2(context.data, e.kEntropy, e.blockLabel, e.stored);
    if kEntropy != existingKEntropy || blockLabel != existingLabel {
      changes.mismatchedData := changes.mismatchedData + 1;
    }
    count := Add4(existingCount, 1);
    newHeader := ReplaceHeader(context, h, count, e, header, existingKEntropy, existingLabel);
    ghost var e1 := e.(stored := count);
    var found, existingSubCount := CursorToType3(context, sourceId, h, e1, newHeader);
    if found {
      BumpType3(context, h, sourceId, Add2(existingSubCount, 1), e1, newHeader);
    } else {
      AddType3(context, h, sourceId, 1, e1, newHeader);
    }
  }

  /** The counters a merge bumps. */
  method CountMerge(changes: Changes, differs: bool, present: bool, subDiffers: bool)
    modifies changes
    ensures Counts(changes) == old(Counts(changes)).(
              mismatchedData := old(changes.mismatchedData) + (if differs then 1 else 0),
              mismatchedSubCount := old(changes.mismatchedSubCount) + (if present && subDiffers then 1 else 0),
              mergedSame := old(changes.mergedSame) + (if present then 1 else 0),
              merged := old(changes.merged) + (if present then 0 else 1))
  {
    if differs {
      changes.mismatchedData := changes.mismatchedData + 1;
    }
    if present {
      if subDiffers {
        changes.mismatchedSubCount := changes.mismatchedSubCount + 1;
      }
      changes.mergedSame := changes.mergedSame + 1;
    } else {
      changes.merged := changes.merged + 1;
    }
  }

  method MergeIntoType1(context: Context, h: ByteString, kEntropy: U64, blockLabel: ByteString, sourceId: U64,
                        subCount: U64, changes: Changes, ghost e: Entry, ghost header: ByteString)
    returns (count: U64, ghost newHeader: ByteString)
    requires AtFirst(context, h, e, header) && |e.subs| == 1 && sourceId > 0
    modifies context, changes
    ensures var e' := AfterMerge(Some(e), kEntropy, blockLabel, sourceId, subCount);
            && Sorted(context.db) && SameElsewhere(old(context.db), context.db, h)
            && Holds(context.db, h, Records(e', newHeader)) && HeaderOk(e', newHeader)
            && count == MergeCount(Some(e), sourceId, subCount)
    ensures MergeCounted(Some(e), kEntropy, blockLabel, sourceId, subCount, old(Counts(changes)), Counts(changes))
  {
    var existingKEntropy, existingLabel, existingSourceId, existingSubCount := ReadType1(context, h, e, header);
    CountMergeInto(changes, kEntropy != existingKEntropy || blockLabel != existingLabel, sourceId == existingSourceId,
                   subCount, existingSubCount, kEntropy, blockLabel, sourceId, e);
    if sourceId == existingSourceId {
      count := existingSubCount;
      newHeader := header;
    } else {
      count := Add4(existingSubCount, subCount);
      newHeader := SplitType1(context, h, existingKEntropy, existingLabel, existingSourceId, existingSubCount,
                              sourceId, subCount, count, e, header);
    }
  }

  /** The counters of a merge into an entry. */
  method CountMergeInto(changes: Changes, differs: bool, found: bool, subCount: U64, existingSubCount: U64,
                        ghost kEntropy: U64, ghost blockLabel: ByteString, ghost sourceId: U64, ghost e: Entry)
    requires found <==> sourceId in e.subs
    requires found ==> existingSubCount == e.subs[sourceId]
    requires differs <==> kEntropy != e.kEntropy || blockLabel != e.blockLabel
    modifies changes
    ensures MergeCounted(Some(e), kEntropy, blockLabel, sourceId, subCount, old(Counts(changes)), Counts(changes))
  {
    CountMerge(changes, differs, found, subCount != existingSubCount);
  }

  /** Back to the header, rewrite its count, then add the new source's record. */
  method MergeNewType3(context: Context, h: ByteString, kEntropy: U64, blockLabel: ByteString, sourceId: U64,
                       subCount: U64, count: U64, ghost e: Entry, ghost header: ByteString)
    returns (ghost newHeader: ByteString)
    requires AtFirst(context, h, e, header) && |e.subs| > 1 && sourceId !in e.subs && sourceId > 0
    requires kEntropy == e.kEntropy && blockLabel == e.blockLabel && count < TWO_TO_THE_32
    modifies context
    ensures var e' := e.(stored := count, subs := e.subs[sourceId := Clip2(subCount)]);
            && Sorted(context.db) && SameElsewhere(old(context.db), context.db, h)
            && Holds(context.db, h, Records(e', newHeader)) && HeaderOk(e', newHeader)
  {
    context.FirstDup();
    newHeader := ReplaceHeader(context, h, count, e, header, kEntropy, blockLabel);
    AddType3(context, h, sourceId, subCount, e.(stored := count), newHeader);
  }

  method MergeIntoType2(context: Context, h: ByteString, kEntropy: U64, blockLabel: ByteString, sourceId: U64,
                        subCount: U64, changes: Changes, ghost e: Entry, ghost header: ByteString)
    returns (count: U64, ghost newHeader: ByteString)
    requires AtFirst(context, h, e, header) && |e.subs| > 1 && sourceId > 0
    modifies context, changes
    ensures var e' := AfterMerge(Some(e), kEntropy, blockLabel, sourceId, subCount);
            && Sorted(context.db) && SameElsewhere(old(context.db), context.db, h)
            && Holds(context.db, h, Records(e', newHeader)) && HeaderOk(e', newHeader)
            && count == MergeCount(Some(e), sourceId, subCount)
    ensures MergeCounted(Some(e), kEntropy, blockLabel, sourceId, subCount, old(Counts(changes)), Counts(changes))
  {
    var existingKEntropy, existingLabel, existingCount :=
      DecodeType2(context.data, e.kEntropy, e.blockLabel, e.stored);
    var found, existingSubCount := CursorToType3(context, sourceId, h, e, header);
    CountMergeInto(changes, kEntropy != existingKEntropy || blockLabel != existingLabel, found,
                   subCount, existingSubCount, kEntropy, blockLabel, sourceId, e);
    if found {
      count := existingCount;
      newHeader := header;
    } else {
      count := Add4(existingCount, subCount);
      newHeader := MergeNewType3(context, h, existingKEntropy, existingLabel, sourceId, subCount, count, e, header);
    }
  }

  /** The counters as a value, for stating what a call adds to them. */
  datatype ChangeCounts = ChangeCounts(inserted: nat, merged: nat, mergedSame: nat,
                                       mismatchedData: nat, mismatchedSubCount: nat)

  function Counts(changes: Changes): ChangeCounts
    reads changes
  {
    ChangeCounts(changes.inserted, changes.merged, changes.mergedSame,
                 changes.mismatchedData, changes.mismatchedSubCount)
  }

  function MergeCount(prev: Option<Entry>, sourceId: nat, subCount: nat): nat {
    if prev.Some? && sourceId in prev.value.subs then prev.value.Count()
    else AfterMerge(prev, 0, [], sourceId, subCount).stored
  }

  /** Every insert is counted, and differing data is noted. */
  ghost predicate InsertCounted(prev: Option<Entry>, kEntropy: nat, blockLabel: ByteString,
                                before: ChangeCounts, after: ChangeCounts)
  {
    && after.inserted == before.inserted + 1
    && after.merged == before.merged && after.mergedSame == before.mergedSame
    && after.mismatchedData == before.mismatchedData + (if Mismatched(prev, kEntropy, blockLabel) then 1 else 0)
    && after.mismatchedSubCount == before.mismatchedSubCount
  }

  /** A merge counts as merged or as merged-same; differing data and a differing
      sub-count of a present source are noted besides. */
  ghost predicate MergeCounted(prev: Option<Entry>, kEntropy: nat, blockLabel: ByteString, sourceId: nat, subCount: nat,
                               before: ChangeCounts, after: ChangeCounts)
  {
    var present := prev.Some? && sourceId in prev.value.subs;
    && after.inserted == before.inserted
    && after.merged == before.merged + (if present then 0 else 1)
    && after.mergedSame == before.mergedSame + (if present then 1 else 0)
    && after.mismatchedData == before.mismatchedData + (if Mismatched(prev, kEntropy, blockLabel) then 1 else 0)
    && after.mismatchedSubCount == before.mismatchedSubCount
                                   + (if present && subCount != prev.value.subs[sourceId] then 1 else 0)
  }

  /** What the database holds under h: nothing, or the records of an entry. */
  ghost predicate Under(db: seq<Pair>, h: ByteString, prev: Option<Entry>, header: ByteString) {
    && Sorted(db)
    && match prev {
         case None => !HasKey(db, h) && Holds(db, h, {})
         case Some(e) => HasKey(db, h) && e.Ok() && HeaderOk(e, header) && Holds(db, h, Records(e, header))
       }
  }

  ghost function HeaderOf(headers: map<ByteString, ByteString>, h: ByteString): ByteString {
    if h in headers then headers[h] else []
  }

  lemma UnderModel(db: seq<Pair>, model: map<ByteString, Entry>, headers: map<ByteString, ByteString>, h: ByteString)
    requires Represents(db, model, headers)
    ensures Under(db, h, Lookup(model, h), HeaderOf(headers, h))
  {
    HasKeyIsInModel(db, model, headers, h);
  }

  method InsertUnder(context: Context, h: ByteString, kEntropy: U64, blockLabel: ByteString, sourceId: U64,
                     changes: Changes, ghost prev: Option<Entry>, ghost header: ByteString)
    returns (count: U64, ghost newHeader: ByteString)
    requires Under(context.db, h, prev, header) && |blockLabel| <= MAX_LABEL_SIZE && sourceId > 0 && IsKey(h)
    modifies context, changes
    ensures var e' := AfterInsert(prev, kEntropy, blockLabel, sourceId);
            && Sorted(context.db) && SameElsewhere(old(context.db), context.db, h)
            && Holds(context.db, h, Records(e', newHeader)) && HeaderOk(e', newHeader) && count == e'.stored
    ensures InsertCounted(prev, kEntropy, blockLabel, old(Counts(changes)), Counts(changes))
  {
    newHeader := [];
    var found := context.SetKey(h);
    if !found {
      NewType1(context, h, kEntropy, blockLabel, sourceId, 1);
      NewRecords(kEntropy, blockLabel, sourceId, 1);
      count := 1;
    } else {
      FirstRecord(context.db, h, prev.value, header);
      if context.data[0] != 0 {
        count, newHeader := InsertIntoType1(context, h, kEntropy, blockLabel, sourceId, changes, prev.value, header);
      } else {
        count, newHeader := InsertIntoType2(context, h, kEntropy, blockLabel, sourceId, changes, prev.value, header);
      }
    }
    changes.inserted := changes.inserted + 1;
  }

  lemma NewRecords(kEntropy: nat, blockLabel: ByteString, sourceId: nat, subCount: nat)
    ensures var e := Entry(kEntropy, blockLabel, Clip2(subCount), map[sourceId := Clip2(subCount)]);
            Records(e, []) == {Type1(kEntropy, blockLabel, sourceId, subCount)} && HeaderOk(e, [])
  {
    assert Put2(Clip2(subCount)) == Put2(subCount);
  }

  lemma AddNothing(subCount: U64)
    ensures Add2(subCount, 0) == Clip2(subCount)
  {
  }

  method MergeUnder(context: Context, h: ByteString, kEntropy: U64, blockLabel: ByteString, sourceId: U64,
                    subCount: U64, changes: Changes, ghost prev: Option<Entry>, ghost header: ByteString)
    returns (count: U64, ghost newHeader: ByteString)
    requires Under(context.db, h, prev, header) && |blockLabel| <= MAX_LABEL_SIZE && sourceId > 0 && IsKey(h)
    modifies context, changes
    ensures var e' := AfterMerge(prev, kEntropy, blockLabel, sourceId, subCount);
            && Sorted(context.db) && SameElsewhere(old(context.db), context.db, h)
            && Holds(context.db, h, Records(e', newHeader)) && HeaderOk(e', newHeader)
    ensures count == MergeCount(prev, sourceId, subCount)
    ensures MergeCounted(prev, kEntropy, blockLabel, sourceId, subCount, old(Counts(changes)), Counts(changes))
  {
    newHeader := [];
    var found := context.SetKey(h);
    if !found {
      NewType1(context, h, kEntropy, blockLabel, sourceId, subCount);
      NewRecords(kEntropy, blockLabel, sourceId, subCount);
      count := Add2(subCount, 0);
      AddNothing(subCount);
      CountMerge(changes, false, false, false);
    } else {
      FirstRecord(context.db, h, prev.value, header);
      if context.data[0] != 0 {
        count, newHeader := MergeIntoType1(context, h, kEntropy, blockLabel, sourceId, subCount, changes,
                                           prev.value, header);
      } else {
        count, newHeader := MergeIntoType2(context, h, kEntropy, blockLabel, sourceId, subCount, changes,
                                           prev.value, header);
      }
    }
  }

  lemma SingleItem(subs: map<nat, nat>, s: nat, c: nat)
    requires subs == map[s := c]
    ensures subs.Items == {(s, c)}
  {
    forall p | p in subs.Items
      ensures p == (s, c)
    {
      assert p.0 in subs && subs[p.0] == p.1;
    }
    assert (s, c) in subs.Items;
  }

  /** Reads the first record of a hash into the count, and the rest besides. */
  method ReadRecords(context: Context, h: ByteString, ghost e: Entry, ghost header: ByteString)
    returns (kEntropy: U64, blockLabel: ByteString, count: U64, subCounts: set<(nat, nat)>)
    requires AtFirst(context, h, e, header)
    modifies context`at, context`key, context`data
    ensures kEntropy == e.kEntropy && blockLabel == e.blockLabel && count == e.Count()
    ensures subCounts == e.subs.Items
  {
    FirstRecord(context.db, h, e, header);
    if context.data[0] != 0 {
      var sourceId, subCount;
      kEntropy, blockLabel, sourceId, subCount := ReadType1(context, h, e, header);
      subCounts := {(sourceId as nat, subCount as nat)};
      count := subCount;
      SingleItem(e.subs, sourceId, subCount);
    } else {
      kEntropy, blockLabel, count := DecodeType2(context.data, e.kEntropy, e.blockLabel, e.stored);
      subCounts := ReadType3s(context, h, e, header);
    }
  }

  /** The hash data store.  env is the committed database; model is the simple map
      it stands for and headers the bytes of its Type 2 records. */
  class HashDataManager {
    var env: seq<Pair>
    ghost var model: map<ByteString, Entry>
    ghost var headers: map<ByteString, ByteString>

    ghost predicate Valid()
      reads this
    {
      Represents(env, model, headers)
    }

    constructor ()
      ensures Valid() && model == map[]
    {
      env := [];
      model, headers := map[], map[];
    }

    /** context.close(): the transaction's pairs become the committed ones. */
    method Commit(context: Context, ghost h: ByteString, ghost e: Entry, ghost header: ByteString)
      requires Valid() && IsKey(h) && e.Ok() && HeaderOk(e, header)
      requires Sorted(context.db) && SameElsewhere(env, context.db, h) && Holds(context.db, h, Records(e, header))
      modifies this
      ensures Valid() && model == old(model)[h := e]
    {
      Update(env, context.db, model, headers, h, e, header);
      env := context.db;
      model, headers := model[h := e], headers[h := header];
    }

    /** Counts one occurrence of a hash in a source.  A zero source id is a program
        error, and so is a hash too long for a key; an empty hash is refused. */
    method Insert(blockHash: ByteString, kEntropy: U64, blockLabel: ByteString, sourceId: U64, changes: Changes)
      returns (count: U64)
      requires Valid() && sourceId > 0 && |blockHash| <= MAX_KEY_SIZE
      modifies this, changes
      ensures Valid()
      ensures blockHash == [] ==> count == 0 && env == old(env) && model == old(model)
                                  && Counts(changes) == old(Counts(changes))
      ensures blockHash != [] ==>
                var prev := Lookup(old(model), blockHash);
                && model == old(model)[blockHash := AfterInsert(prev, kEntropy, Truncate(blockLabel), sourceId)]
                && count == model[blockHash].stored
                && InsertCounted(prev, kEntropy, Truncate(blockLabel), old(Counts(changes)), Counts(changes))
    {
      if |blockHash| == 0 {
        return 0;
      }
      var shortLabel := Truncate(blockLabel);
      var context := new Context(env);
      ghost var prev := Lookup(model, blockHash);
      ghost var header := HeaderOf(headers, blockHash);
      UnderModel(env, model, headers, blockHash);
      ghost var newHeader;
      ghost var e' := AfterInsert(prev, kEntropy, shortLabel, sourceId);
      count, newHeader := InsertUnder(context, blockHash, kEntropy, shortLabel, sourceId, changes, prev, header);
      AfterInsertOk(prev, kEntropy, shortLabel, sourceId);
      Commit(context, blockHash, e', newHeader);
    }

    /** Adds a source's sub-count to a hash unless that source is already there. */
    method Merge(blockHash: ByteString, kEntropy: U64, blockLabel: ByteString, sourceId: U64, subCount: U64,
                 changes: Changes)
      returns (count: U64)
      requires Valid() && sourceId > 0 && |blockHash| <= MAX_KEY_SIZE
      modifies this, changes
      ensures Valid()
      ensures blockHash == [] ==> count == 0 && env == old(env) && model == old(model)
                                  && Counts(changes) == old(Counts(changes))
      ensures blockHash != [] ==>
                var prev := Lookup(old(model), blockHash);
                && model == old(model)[blockHash :=
                                       AfterMerge(prev, kEntropy, Truncate(blockLabel), sourceId, subCount)]
                && count == MergeCount(prev, sourceId, subCount)
                && (count == if prev.Some? && sourceId in prev.value.subs then model[blockHash].Count()
                             else model[blockHash].stored)
                && MergeCounted(prev, kEntropy, Truncate(blockLabel), sourceId, subCount,
                                old(Counts(changes)), Counts(changes))
    {
      if |blockHash| == 0 {
        return 0;
      }
      var shortLabel := Truncate(blockLabel);
      var context := new Context(env);
      ghost var prev := Lookup(model, blockHash);
      ghost var header := HeaderOf(headers, blockHash);
      UnderModel(env, model, headers, blockHash);
      ghost var newHeader;
      ghost var e' := AfterMerge(prev, kEntropy, shortLabel, sourceId, subCount);
      count, newHeader := MergeUnder(context, blockHash, kEntropy, shortLabel, sourceId, subCount, changes,
                                     prev, header);
      AfterMergeOk(prev, kEntropy, shortLabel, sourceId, subCount);
      Commit(context, blockHash, e', newHeader);
    }

    /** Reads a hash back: false and empty fields when it is not there. */
    method Find(blockHash: ByteString)
      returns (found: bool, kEntropy: U64, blockLabel: ByteString, count: U64, subCounts: set<(nat, nat)>)
      requires Valid()
      ensures found <==> blockHash in model
      ensures !found ==> kEntropy == 0 && blockLabel == [] && count == 0 && subCounts == {}
      ensures found ==>
                var e := model[blockHash];
                && e.Ok() && kEntropy == e.kEntropy && blockLabel == e.blockLabel && count == e.Count()
                && subCounts == e.subs.Items
    {
      found, kEntropy, blockLabel, count, subCounts := false, 0, [], 0, {};
      if |blockHash| == 0 {
        return;
      }
      var context := new Context(env);
      HasKeyIsInModel(env, model, headers, blockHash);
      found := context.SetKey(blockHash);
      if !found {
        return;
      }
      ghost var e, header := model[blockHash], headers[blockHash];
      FirstRecord(env, blockHash, e, header);
      kEntropy, blockLabel, count, subCounts := ReadRecords(context, blockHash, e, header);
    }

    /** The count alone: it always agrees with Find. */
    method FindCount(blockHash: ByteString) returns (count: U64)
      requires Valid()
      ensures count == if blockHash in model then model[blockHash].Count() else 0
    {
      if |blockHash| == 0 {
        return 0;
      }
      var context := new Context(env);
      HasKeyIsInModel(env, model, headers, blockHash);
      var found := context.SetKey(blockHash);
      if !found {
        return 0;
      }
      ghost var e, header := model[blockHash], headers[blockHash];
      FirstRecord(env, blockHash, e, header);
      if context.data[0] != 0 {
        var kEntropy, blockLabel, sourceId, subCount := ReadType1(context, blockHash, e, header);
        count := subCount;
      } else {
        var kEntropy, blockLabel;
        kEntropy, blockLabel, count := DecodeType2(context.data, e.kEntropy, e.blockLabel, e.stored);
      }
    }

    /** The first hash in key order, or the empty string. */
    method FirstHash() returns (blockHash: ByteString)
      requires Valid()
      ensures blockHash == [] <==> model == map[]
      ensures blockHash != [] ==> blockHash in model && forall h :: h in model && h != blockHash ==>
              LexLess(blockHash, h)
    {
      var context := new Context(env);
      var found := context.First();
      if !found {
        forall h | h in model
          ensures false
        {
          HasKeyIsInModel(env, model, headers, h);
        }
        return [];
      }
      blockHash := context.key;
      assert env[0] in env;
      forall h | h in model && h != blockHash
        ensures LexLess(blockHash, h)
      {
        HasKeyIsInModel(env, model, headers, h);
        var j :| 0 <= j < |env| && env[j].key == h;
        assert Before(env[0], env[j]);
      }
    }

    /** The least hash after a present one, or the empty string. */
    method NextHash(blockHash: ByteString) returns (next: ByteString)
      requires Valid()
      ensures blockHash !in model ==> next == []
      ensures next != [] ==> next in model && LexLess(blockHash, next)
      ensures blockHash in model ==>
                forall h :: h in model && LexLess(blockHash, h) ==> next != [] && (h == next || LexLess(next, h))
    {
      if |blockHash| == 0 {
        return [];
      }
      var context := new Context(env);
      HasKeyIsInModel(env, model, headers, blockHash);
      var found := context.SetKey(blockHash);
      if !found {
        return [];
      }
      next := NextKeyOf(context, model, headers);
    }
  }

  method NextKeyOf(context: Context, ghost model: map<ByteString, Entry>, ghost headers: map<ByteString, ByteString>)
    returns (next: ByteString)
    requires Represents(context.db, model, headers) && context.at < |context.db|
    modifies context`at, context`key, context`data
    ensures var h0 := context.db[old(context.at)].key;
            && (next != [] ==> next in model && LexLess(h0, next))
            && (forall h :: h in model && LexLess(h0, h) ==> next != [] && (h == next || LexLess(next, h)))
  {
    ghost var first := context.at;
    var found := context.NextNoDup();
    next := if found then context.key else [];
    NextKey(context.db, model, headers, first, if found then context.at else |context.db|);
  }

  /** The keys greater than the one at first are the key at the next start, and
      those greater than it. */
  lemma NextKey(db: seq<Pair>, model: map<ByteString, Entry>, headers: map<ByteString, ByteString>, first: nat, at: nat)
    requires Represents(db, model, headers) && first < at <= |db|
    requires forall i :: first <= i < at ==> db[i].key == db[first].key
    requires at < |db| ==> db[at].key != db[first].key
    ensures at < |db| ==> db[at].key in model && |db[at].key| > 0 && LexLess(db[first].key, db[at].key)
    ensures forall h :: h in model && LexLess(db[first].key, h) ==>
                          at < |db| && (h == db[at].key || LexLess(db[at].key, h))
  {
    if at < |db| {
      assert db[at] in db;
      assert Before(db[first], db[at]);
    }
    forall h | h in model && LexLess(db[first].key, h)
      ensures at < |db| && (h == db[at].key || LexLess(db[at].key, h))
    {
      HasKeyIsInModel(db, model, headers, h);
      var j :| 0 <= j < |db| && db[j].key == h;
      KeyAfter(db, first, at, j);
    }
  }

  /** A key greater than the one at first lies at or past the next key's start. */
  lemma KeyAfter(s: seq<Pair>, first: nat, at: nat, j: nat)
    requires Sorted(s) && first < at <= |s| && j < |s| && LexLess(s[first].key, s[j].key)
    requires forall i :: first <= i < at ==> s[i].key == s[first].key
    ensures at <= j && (s[j].key == s[at].key || LexLess(s[at].key, s[j].key))
  {
    LexIrreflexive(s[first].key);
    if j < first {
      assert Before(s[j], s[first]);
      BeforeAsymmetric(s[j], s[first]);
    }
    assert j < at ==> j < first;
  }

  ghost predicate Collected(d: ByteString, e: Entry, subCounts: set<(nat, nat)>) {
    forall s :: s in e.subs && d == Type3(s, e.subs[s]) ==> (s, e.subs[s]) in subCounts
  }

  lemma CollectOne(db: seq<Pair>, first: nat, at: nat, e: Entry, s: nat,
                   before: set<(nat, nat)>, after: set<(nat, nat)>)
    requires e.Ok() && s in e.subs && after == before + {(s, e.subs[s])} && before <= e.subs.Items
    requires first < at < |db| && db[at].data == Type3(s, e.subs[s])
    requires forall i :: first < i < at ==> Collected(db[i].data, e, before)
    ensures after <= e.subs.Items
    ensures forall i :: first < i <= at ==> Collected(db[i].data, e, after)
  {
    assert (s, e.subs[s]) in e.subs.Items;
    forall t | t in e.subs && db[at].data == Type3(t, e.subs[t])
      ensures t == s
    {
      Type3Injective(s, e.subs[s], t, e.subs[t]);
    }
  }

  /** Steps through the records after a Type 2 header while the key stays the same. */
  method ReadType3s(context: Context, h: ByteString, ghost e: Entry, ghost header: ByteString)
    returns (subCounts: set<(nat, nat)>)
    requires AtFirst(context, h, e, header) && |e.subs| > 1
    modifies context`at, context`key, context`data
    ensures subCounts == e.subs.Items
  {
    subCounts := {};
    ghost var first, last := context.at, context.at;
    while true
      invariant context.Loaded() && context.key == h && first <= last == context.at
      invariant subCounts <= e.subs.Items
      invariant forall i :: first < i <= last ==> Collected(context.db[i].data, e, subCounts)
      invariant forall i :: first < i <= last ==> context.db[i].key == h
      decreases |context.db| - context.at
    {
      var more := context.Next();
      if !more || context.key != h {
        break;
      }
      ghost var s := SourceAt(context.db, first, context.at, h, e, header);
      var sourceId, subCount := DecodeType3(context.data, s, e.subs[s]);
      ghost var before := subCounts;
      subCounts := subCounts + {(sourceId as nat, subCount as nat)};
      CollectOne(context.db, first, context.at, e, s, before, subCounts);
      last := context.at;
    }
    AllCollected(context.db, first, last, h, e, header, subCounts);
  }

  lemma AllCollected(db: seq<Pair>, first: nat, last: nat, h: ByteString, e: Entry, header: ByteString,
                     subCounts: set<(nat, nat)>)
    requires Sorted(db) && first <= last < |db| && first == Lower(db, Start(h)) && e.Ok() && HeaderOk(e, header)
    requires Holds(db, h, Records(e, header)) && |e.subs| > 1 && db[first] == Pair(h, header)
    requires forall i :: first < i <= last ==> db[i].key == h && Collected(db[i].data, e, subCounts)
    requires last + 1 < |db| ==> db[last + 1].key != h
    ensures e.subs.Items <= subCounts
  {
    forall p | p in e.subs.Items
      ensures p in subCounts
    {
      assert p == (p.0, e.subs[p.0]);
      var i := SourceVisited(db, first, last, h, e, header, p.0);
      assert Collected(db[i].data, e, subCounts);
    }
  }

  lemma SourceVisited(db: seq<Pair>, first: nat, last: nat, h: ByteString, e: Entry, header: ByteString, s: nat)
    returns (i: nat)
    requires Sorted(db) && first <= last < |db| && first == Lower(db, Start(h)) && e.Ok() && HeaderOk(e, header)
    requires Holds(db, h, Records(e, header)) && |e.subs| > 1 && db[first] == Pair(h, header)
    requires forall i :: first < i <= last ==> db[i].key == h
    requires last + 1 < |db| ==> db[last + 1].key != h
    requires s in e.subs
    ensures first < i <= last && db[i].data == Type3(s, e.subs[s])
  {
    var d := Type3(s, e.subs[s]);
    if i :| first < i <= last && db[i].data == d {
      return i;
    }
    NoSourceLeft(db, first, last, h, e, header, s);
  }
}
