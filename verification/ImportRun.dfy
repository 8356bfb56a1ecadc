/** Import calls on the byte stores: any interleaving of any calls, one store operation at a
    time, on the managers themselves, and find_hash on what they leave. */
module ImportRun {
  import opened ByteStrings
  import opened HashDataRecords
  import opened HashDataModel
  import opened ImportManager
  import opened Sources
  import opened SourceStores
  import HashDataRuns
  import HashFilter
  import Lmdb
  import ScanManager
  import Store = HashDataManager

  /** Source data that the source data store can hold. */
  predicate Writable(call: Call) {
    call.InsertSourceData? ==> Storable(call.info) && |call.info.fileType| < 0x8_0000_0000
  }

  /** The count that the hash data store returns is the one that the calls hand on. */
  lemma ReturnedByInsert(prev: Option<Entry>, op: HashDataRuns.Op)
    requires op.Insert? && op.source > 0 && (prev.Some? ==> prev.value.Ok())
    ensures Returned(prev, op) == HashDataRuns.After(prev, op).stored
  {
    HashDataRuns.AfterOk(prev, op);
  }

  lemma ReturnedByMerge(prev: Option<Entry>, op: HashDataRuns.Op)
    requires op.Merge? && op.source > 0 && (prev.Some? ==> prev.value.Ok())
    ensures Returned(prev, op) == Store.MergeCount(prev, op.source, op.subCount)
  {
    HashDataRuns.AfterOk(prev, op);
  }

  class Stores {
    const hashData: Store.HashDataManager
    const filter: HashFilter.HashManager
    const ids: SourceIdManager
    const data: SourceDataManager
    const changes: Store.Changes
    var names: map<nat, set<(ByteString, ByteString)>>
    var threads: seq<Thread>
    ghost var state: State

    ghost predicate CallsWritable()
      reads this
    {
      forall t :: 0 <= t < |threads| && threads[t].Running? ==> Writable(threads[t].call)
    }

    /** The stores hold the modelled state, the hash data and source stores as bytes. */
    ghost predicate Matches()
      reads this, hashData, filter, ids, data
    {
      && hashData.Valid() && hashData.model == state.entries
      && filter.env == state.filter
      && ids.Valid() && ids.ids == state.ids
      && data.Valid() && data.model == state.data
      && names == state.names && threads == state.threads && CallsWritable()
    }

    constructor (threads: nat)
      ensures Matches() && state == Init(threads)
      ensures fresh(hashData) && fresh(filter) && fresh(ids) && fresh(data) && fresh(changes)
    {
      hashData := new Store.HashDataManager();
      filter := new HashFilter.HashManager();
      ids := new SourceIdManager();
      data := new SourceDataManager();
      changes := new Store.Changes();
      names, this.threads := map[], seq(threads, _ => Idle);
      state := Init(threads);
    }

    method TakeId(t: nat)
      requires Matches() && t < |threads| && threads[t].Running? && Lmdb.IsKey(threads[t].call.fileHash)
      requires |state.ids| + 1 < TWO_TO_THE_64
      modifies this`threads, this`state, ids
      ensures Matches() && state == GetId(old(state), t)
    {
      ghost var was := state;
      var th := threads[t];
      var isNew, id := ids.Insert(th.call.fileHash, 0);
      threads := threads[t := th.(pc := AtBody, id := id, isNew := isNew)];
      state := GetId(was, t);
    }

    method WriteName(t: nat)
      requires Matches() && t < |threads| && threads[t].Running? && threads[t].call.InsertSourceName?
      modifies this`names, this`threads, this`state
      ensures Matches() && state == Body(old(state), t)
    {
      var th := threads[t];
      var known := if th.id in names then names[th.id] else {};
      names := names[th.id := known + {(th.call.repository, th.call.filename)}];
      threads := threads[t := th.(pc := AtBlank)];
      state := Body(state, t);
    }

    method WriteData(t: nat)
      requires Matches() && t < |threads| && threads[t].Running? && threads[t].call.InsertSourceData?
      requires Lmdb.IsKey(threads[t].call.fileHash)
      modifies this`threads, this`state, data
      ensures Matches() && state == Body(old(state), t)
    {
      ghost var was := state;
      var th := threads[t];
      data.Insert(th.id, th.call.fileHash, th.call.info);
      threads := threads[t := Idle];
      state := Body(was, t);
    }

    /** insert and merge of the hash data store, and the count they return. */
    method WriteHash(t: nat)
      requires Matches() && t < |threads| && threads[t].Running? && threads[t].call.OnHash()
      requires threads[t].id > 0 && Lmdb.IsKey(threads[t].call.blockHash)
      modifies this`threads, this`state, hashData, changes
      ensures Matches() && state == Body(old(state), t)
    {
      ghost var was := state;
      var th := threads[t];
      var count := CallStore(th.call, th.id);
      threads := threads[t := th.(pc := AtFilter, count := count)];
      state := Body(was, t);
    }

    method CallStore(call: Call, id: U64) returns (count: U64)
      requires hashData.Valid() && call.OnHash() && id > 0 && Lmdb.IsKey(call.blockHash)
      modifies hashData, changes
      ensures hashData.Valid()
      ensures var prev, op := Lookup(old(hashData.model), call.blockHash), call.Op(id);
              && hashData.model == old(hashData.model)[op.hash := HashDataRuns.After(prev, op)]
              && count == Returned(prev, op)
    {
      ghost var prev := Lookup(hashData.model, call.blockHash);
      EntryOk(hashData, call.blockHash);
      match call {
        case InsertHash(h, k, l, _) =>
          ReturnedByInsert(prev, call.Op(id));
          count := hashData.Insert(h, k, l, id, changes);
        case MergeHash(h, k, l, _, c) =>
          ReturnedByMerge(prev, call.Op(id));
          count := hashData.Merge(h, k, l, id, c, changes);
        case _ =>
      }
    }

    method WriteFilter(t: nat)
      requires Matches() && t < |threads| && threads[t].Running? && threads[t].call.OnHash()
      requires Lmdb.IsKey(threads[t].call.blockHash)
      modifies this`threads, this`state, filter
      ensures Matches() && state == Filter(old(state), t)
    {
      ghost var was := state;
      var th := threads[t];
      filter.Insert(th.call.blockHash, th.count);
      threads := threads[t := th.(pc := AtBlank)];
      state := Filter(was, t);
    }

    method WriteBlank(t: nat)
      requires Matches() && t < |threads| && threads[t].Running? && Lmdb.IsKey(threads[t].call.fileHash)
      modifies this`threads, this`state, data
      ensures Matches() && state == Blank(old(state), t)
    {
      ghost var was := state;
      var th := threads[t];
      if th.isNew {
        data.Insert(th.id, th.call.fileHash, BLANK);
      }
      threads := threads[t := Idle];
      state := Blank(was, t);
    }

    method Advance(t: nat)
      requires Matches() && t < |threads| && threads[t].Running? && ImportManager.Inv(state)
      requires |state.ids| + 1 < TWO_TO_THE_64
      modifies this, hashData, filter, ids, data, changes
      ensures Matches() && state == ImportManager.Step(old(state), t)
    {
      Ready(state, t);
      var th := threads[t];
      match th.pc {
        case AtId => TakeId(t);
        case AtBody =>
          if th.call.InsertSourceName? {
            WriteName(t);
          } else if th.call.InsertSourceData? {
            WriteData(t);
          } else {
            WriteHash(t);
          }
        case AtFilter => WriteFilter(t);
        case AtBlank => WriteBlank(t);
      }
    }

    // ---------- find_hash ----------

    /** Ask the filter, then the hash data store, then look the source ids up. */
    method FindHash(h: ByteString)
      returns (found: bool, failed: bool, kEntropy: nat, blockLabel: ByteString, count: nat,
               sources: map<ByteString, nat>)
      requires Matches()
      ensures ScanManager.Reports(state, h, found, failed, kEntropy, blockLabel, count, sources)
    {
      found, failed, kEntropy, blockLabel, count, sources := false, false, 0, [], 0, map[];
      if h == [] {
        return;
      }
      var approximate := filter.Find(h);
      if approximate == 0 {
        return;
      }
      var subCounts;
      found, kEntropy, blockLabel, count, subCounts := hashData.Find(h);
      if found {
        failed, sources := LookUpSources(subCounts, hashData.model[h].subs);
        if failed {
          found, kEntropy, blockLabel, count := false, 0, [], 0;
        }
      }
    }

    /** The approximate count, from the filter alone. */
    method FindApproximate(h: ByteString) returns (count: U64)
      requires Matches()
      ensures h == [] ==> count == 0
      ensures h != [] ==>
                var byte := Lookup(state.filter, HashFilter.Prefix(h));
                count == if byte.Some? then HashFilter.Decoded(byte.value) else 0
    {
      if h == [] {
        return 0;
      }
      count := filter.Find(h);
    }

    /** The reverse look-up. It fails on the first source id without a record. */
    method LookUpSources(subCounts: set<(nat, nat)>, ghost subs: map<nat, nat>)
      returns (failed: bool, sources: map<ByteString, nat>)
      requires data.Valid() && subCounts == subs.Items
      requires forall id :: id in subs ==> id < TWO_TO_THE_64
      ensures failed <==> !(subs.Keys <= data.model.Keys)
      ensures failed ==> sources == map[]
      ensures !failed ==> ScanManager.SourcesRead(data.model, subs, sources)
    {
      failed, sources := false, map[];
      var left := subCounts;
      while left != {}
        invariant left <= subCounts
        invariant forall id :: id in subs && (id, subs[id]) !in left ==>
                                 id in data.model && data.model[id].fileHash in sources
        invariant forall f :: f in sources ==> ScanManager.Backed(data.model, subs, f, sources[f])
        decreases |left|
      {
        var pair :| pair in left;
        left := left - {pair};
        assert pair.0 in subs && subs[pair.0] == pair.1;
        var known, f, info := data.Find(pair.0);
        if !known {
          return true, map[];
        }
        if f !in sources {
          assert ScanManager.Backed(data.model, subs, f, pair.1);
          sources := sources[f := pair.1];
        }
      }
    }

    /** Whatever happens next, the stores follow the model. */
    method Step(e: Event)
      requires Matches() && ImportManager.Inv(state) && |state.ids| + 1 < TWO_TO_THE_64
      requires e.Begin? ==> Writable(e.call)
      modifies this, hashData, filter, ids, data, changes
      ensures Matches() && state == Next(old(state), e)
    {
      if e.t < |threads| {
        match e
        case Begin(t, call) =>
          if threads[t].Idle? && call.Accepted() {
            threads := threads[t := Running(call, AtId, 0, false, 0)];
            state := state.(threads := threads);
          }
        case Advance(t) =>
          if threads[t].Running? {
            Advance(t);
          }
      }
    }
  }

  lemma EntryOk(store: Store.HashDataManager, h: ByteString)
    requires store.Valid()
    ensures Lookup(store.model, h).Some? ==> store.model[h].Ok()
  {
  }

  lemma Ready(s: State, t: nat)
    requires ImportManager.Inv(s) && t < |s.threads| && s.threads[t].Running?
    ensures var th := s.threads[t];
            && th.call.Accepted() && (th.pc == AtFilter ==> th.call.OnHash()) && (th.pc == AtBody ==> th.id > 0)
  {
    PartsFromInv(s);
    assert ThreadOk(s, s.threads[t]);
  }

  /** Any interleaving of any calls, on the byte stores. */
  method Replay(threads: nat, events: seq<Event>) returns (stores: Stores)
    requires |events| + 1 < TWO_TO_THE_64
    requires forall e :: e in events && e.Begin? ==> Writable(e.call)
    ensures fresh(stores) && stores.Matches() && stores.state == Reached(threads, events, |events|)
  {
    stores := new Stores(threads);
    for i := 0 to |events|
      invariant fresh(stores) && fresh(stores.hashData) && fresh(stores.filter) && fresh(stores.ids)
      invariant fresh(stores.data) && fresh(stores.changes)
      invariant stores.Matches() && stores.state == Reached(threads, events, i)
    {
      assert events[i] in events;
      Follow(stores, threads, events, i);
    }
  }

  method Follow(stores: Stores, ghost threads: nat, events: seq<Event>, i: nat)
    requires i < |events| && |events| + 1 < TWO_TO_THE_64 && (events[i].Begin? ==> Writable(events[i].call))
    requires stores.Matches() && stores.state == Reached(threads, events, i)
    modifies stores, stores.hashData, stores.filter, stores.ids, stores.data, stores.changes
    ensures stores.Matches() && stores.state == Reached(threads, events, i + 1)
  {
    ReachedOk(threads, events, i);
    stores.Step(events[i]);
  }

  /** Any interleaving of any calls, then a find when none is in progress: the find never
      fails, and reports what the calls amount to. */
  method FindAfterEvents(threads: nat, events: seq<Event>, h: ByteString)
    returns (found: bool, kEntropy: nat, blockLabel: ByteString, count: nat, sources: map<ByteString, nat>)
    requires |events| + 1 < TWO_TO_THE_64 && ScanManager.AtRest(Reached(threads, events, |events|))
    requires forall e :: e in events && e.Begin? ==> Writable(e.call)
    ensures var s, last := Reached(threads, events, |events|),
                           ScanManager.LastWrite(threads, events, |events|, h);
            && (found <==> h in s.entries && last != Some(0))
            && (found ==> ScanManager.Exact(s, s.entries[h], kEntropy, blockLabel, count, sources))
            && (!found ==> kEntropy == 0 && blockLabel == [] && count == 0 && sources == map[])
  {
    var stores := Replay(threads, events);
    var failed;
    found, failed, kEntropy, blockLabel, count, sources := stores.FindHash(h);
    ScanManager.ReportAtRest(threads, events, h, found, failed, kEntropy, blockLabel, count, sources);
  }

  /** Any interleaving, then an approximate count: that of the latest count written for the
      hash's first seven bytes, and zero when there was none. */
  method ApproximateAfterEvents(threads: nat, events: seq<Event>, h: ByteString) returns (count: U64)
    requires |events| + 1 < TWO_TO_THE_64 && h != []
    requires forall e :: e in events && e.Begin? ==> Writable(e.call)
    ensures var last := ScanManager.LastWrite(threads, events, |events|, h);
            count == if last.Some? then HashFilter.Decoded(HashFilter.Code(last.value)) else 0
  {
    var stores := Replay(threads, events);
    count := stores.FindApproximate(h);
    ScanManager.FilterIsLastWrite(threads, events, |events|, h);
  }
}
