/** End to end: any run of calls on the byte store, then a look-up. */
module HashDataEndToEnd {
  import opened ByteStrings
  import opened HashDataRecords
  import opened HashDataModel
  import opened HashDataRuns
  import opened MapSums
  import Lmdb
  import Store = HashDataManager

  /** How many calls of each kind there were. */
  ghost function Tallied(ops: seq<Op>, n: nat): Store.ChangeCounts
    requires n <= |ops|
  {
    Store.ChangeCounts(Times(Inserts, ops, n), Times(NewMerges, ops, n), Times(SameMerges, ops, n),
                       Times(OtherData, ops, n), Times(OtherSubCounts, ops, n))
  }

  method Replay(ops: seq<Op>) returns (store: Store.HashDataManager, changes: Store.Changes)
    requires Accepted(ops)
    ensures fresh(store) && store.Valid() && store.model == Run(ops, |ops|)
    ensures fresh(changes) && Store.Counts(changes) == Tallied(ops, |ops|)
  {
    store := new Store.HashDataManager();
    changes := new Store.Changes();
    for i := 0 to |ops|
      invariant fresh(store) && fresh(changes) && store.Valid() && store.model == Run(ops, i)
      invariant Store.Counts(changes) == Tallied(ops, i)
    {
      assert ops[i] in ops;
      ghost var before := Store.Counts(changes);
      StateOfRun(ops, i, ops[i].hash);
      Apply(store, changes, ops[i]);
      TalliedNext(ops, i, before, Store.Counts(changes));
    }
  }

  /** What the store adds to its counters for one call. */
  ghost predicate CallCounted(prev: Option<Entry>, op: Op, before: Store.ChangeCounts, after: Store.ChangeCounts) {
    var l := Truncate(op.blockLabel);
    match op
    case Insert(_, k, _, _) => Store.InsertCounted(prev, k, l, before, after)
    case Merge(_, k, _, s, c) => Store.MergeCounted(prev, k, l, s, c, before, after)
  }

  lemma TalliedNext(ops: seq<Op>, i: nat, before: Store.ChangeCounts, after: Store.ChangeCounts)
    requires i < |ops| && before == Tallied(ops, i) && CallCounted(State(ops, i, ops[i].hash), ops[i], before, after)
    ensures after == Tallied(ops, i + 1)
  {
    MismatchIsDifference(ops, i);
    SubCountsOfRun(ops, i, ops[i].hash, ops[i].source);
    forall kind {
      OneMoreTime(kind, ops, i);
    }
  }

  method Apply(store: Store.HashDataManager, changes: Store.Changes, op: Op)
    requires store.Valid() && op.source > 0 && Lmdb.IsKey(op.hash)
    modifies store, changes
    ensures store.Valid()
    ensures store.model == old(store.model)[op.hash := After(Lookup(old(store.model), op.hash), op)]
    ensures CallCounted(Lookup(old(store.model), op.hash), op, old(Store.Counts(changes)), Store.Counts(changes))
  {
    match op {
      case Insert(h, k, l, s) =>
        var count := store.Insert(h, k, l, s, changes);
      case Merge(h, k, l, s, c) =>
        var count := store.Merge(h, k, l, s, c, changes);
    }
  }

  /** The fields of h are what the calls that named it amount to. */
  ghost predicate Amounts(ops: seq<Op>, h: ByteString, kEntropy: nat, blockLabel: ByteString, count: nat,
                          subs: map<nat, nat>)
  {
    var n := |ops|;
    && (forall i :: 0 <= i < n && ops[i].hash == h && (forall j :: 0 <= j < i ==> ops[j].hash != h) ==>
                      && kEntropy == ops[i].kEntropy && blockLabel <= ops[i].blockLabel
                      && |blockLabel| == if |ops[i].blockLabel| <= 10 then |ops[i].blockLabel| else 10)
    && (forall s: nat :: s in subs <==> Cited(ops, n, h, s))
    && (forall s: nat :: s in subs ==>
                           var ideal := Counted(ops, n, h, s); subs[s] == if ideal <= 65535 then ideal else 65535)
    && (Total(ops, n, h) < 0x8000_0000 ==> Sum(subs) <= count <= Total(ops, n, h))
    && (Total(ops, n, h) < 0x8000_0000 && NoneClipped(ops, h) ==> Sum(subs) == count == Total(ops, n, h))
  }

  ghost predicate NoneClipped(ops: seq<Op>, h: ByteString) {
    forall s :: Cited(ops, |ops|, h, s) ==> Counted(ops, |ops|, h, s) <= 0xffff
  }

  lemma StateAmounts(ops: seq<Op>, h: ByteString, e: Entry)
    requires Accepted(ops) && State(ops, |ops|, h) == Some(e)
    ensures Amounts(ops, h, e.kEntropy, e.blockLabel, e.Count(), e.subs)
  {
    var n := |ops|;
    forall i | 0 <= i < n && ops[i].hash == h && (forall j :: 0 <= j < i ==> ops[j].hash != h)
      ensures e.kEntropy == ops[i].kEntropy && e.blockLabel <= ops[i].blockLabel
      ensures |e.blockLabel| == if |ops[i].blockLabel| <= 10 then |ops[i].blockLabel| else 10
    {
      FirstWriterWins(ops, n, h, i);
    }
    forall s: nat
      ensures s in e.subs <==> Cited(ops, n, h, s)
      ensures s in e.subs ==> e.subs[s] == Clip2(Counted(ops, n, h, s))
    {
      SubCountsOfRun(ops, n, h, s);
    }
    if Total(ops, n, h) < 0x8000_0000 {
      CountBetweenSumAndTotal(ops, n, h);
      if NoneClipped(ops, h) {
        CountIsExact(ops, n, h);
      }
    }
  }

  /** What find and find_count read from the bytes after any run: the hash is there
      exactly when a call named it, its fields are what those calls amount to, and both
      give one count. */
  method FindAfterRun(ops: seq<Op>, h: ByteString)
    returns (found: bool, kEntropy: U64, blockLabel: ByteString, count: U64, subCounts: set<(nat, nat)>,
             countAlone: U64, ghost subs: map<nat, nat>)
    requires forall op :: op in ops ==> op.source > 0 && 0 < |op.hash| <= 511
    ensures found <==> exists i :: 0 <= i < |ops| && ops[i].hash == h
    ensures found ==> subCounts == subs.Items && Amounts(ops, h, kEntropy, blockLabel, count, subs)
    ensures !found ==> kEntropy == 0 && blockLabel == [] && count == 0 && subCounts == {}
    ensures countAlone == count
  {
    var store, changes := Replay(ops);
    StateOfRun(ops, |ops|, h);
    SubCountsOfRun(ops, |ops|, h, 0);
    found, kEntropy, blockLabel, count, subCounts := store.Find(h);
    subs := map[];
    if found {
      subs := store.model[h].subs;
      StateAmounts(ops, h, store.model[h]);
    }
    countAlone := store.FindCount(h);
  }
}
