/** scan_manager_t::find_hash over the stores that interleaved import calls leave
    behind: the reverse look-up of sources, and the prefix filter in front. */
module ScanManager {
  import opened ByteStrings
  import opened HashDataRecords
  import opened HashDataModel
  import opened ImportManager
  import opened Sources
  import HashDataRuns
  import HashFilter
  import Lmdb
  import MapSums

  /** The filter has something for the hash's prefix. */
  predicate Passes(s: State, h: ByteString) {
    HashFilter.Prefix(h) in s.filter && HashFilter.Decoded(s.filter[HashFilter.Prefix(h)]) != 0
  }

  predicate Present(s: State, h: ByteString) {
    h != [] && Passes(s, h) && h in s.entries
  }

  /** What find_hash makes of the stores. Its result set is keyed by file hash, so a second
      source with the same file hash would be dropped; a source id without a record is the
      code's assertion failure. */
  ghost predicate Reports(s: State, h: ByteString, found: bool, failed: bool, kEntropy: nat, blockLabel: ByteString,
                          count: nat, sources: map<ByteString, nat>)
  {
    && (failed <==> Present(s, h) && !(s.entries[h].subs.Keys <= s.data.Keys))
    && (found <==> Present(s, h) && !failed)
    && (found ==> kEntropy == s.entries[h].kEntropy && blockLabel == s.entries[h].blockLabel)
    && (found ==> count == s.entries[h].Count() && SourcesRead(s.data, s.entries[h].subs, sources))
    && (!found ==> kEntropy == 0 && blockLabel == [] && count == 0 && sources == map[])
  }

  /** Every source has an entry under its file hash, and every entry comes from a source. */
  ghost predicate SourcesRead(data: map<nat, SourceData>, subs: map<nat, nat>, sources: map<ByteString, nat>) {
    && (forall id :: id in subs ==> id in data && data[id].fileHash in sources)
    && (forall f :: f in sources ==> Backed(data, subs, f, sources[f]))
  }

  ghost predicate Backed(data: map<nat, SourceData>, subs: map<nat, nat>, f: ByteString, c: nat) {
    exists id :: id in subs && id in data && data[id].fileHash == f && c == subs[id]
  }

  // ---------- states in which no import call is in progress ----------

  predicate AtRest(s: State) {
    forall t :: 0 <= t < |s.threads| ==> s.threads[t].Idle?
  }

  /** At rest every id has a record with the one file hash it stands for. */
  lemma RecordsComplete(s: State)
    requires Inv(s) && AtRest(s)
    ensures IdsDense(s.ids)
    ensures forall f :: f in s.ids ==> s.ids[f] in s.data && s.data[s.ids[f]].fileHash == f
    ensures forall id :: id in s.data ==> 1 <= id <= |s.ids|
  {
    PartsFromInv(s);
    forall f | f in s.ids
      ensures s.ids[f] in s.data && s.data[s.ids[f]].fileHash == f
    {
      assert !SomeOwes(s.threads, s.ids[f]);
    }
  }

  /** The sources a hash's entry cites are exactly the records' file hashes. */
  lemma CitedSourcesKnown(s: State, h: ByteString)
    requires Inv(s) && AtRest(s) && h in s.entries
    ensures s.entries[h].subs.Keys <= s.data.Keys
    ensures forall id :: id in s.entries[h].subs ==> HasId(s.ids, id)
  {
    PartsFromInv(s);
    RecordsComplete(s);
    forall id | id in s.entries[h].subs
      ensures id in s.data && HasId(s.ids, id)
    {
      CitedIsOp(s.history, |s.history|, h, id);
      var f :| f in s.ids && s.ids[f] == id;
    }
  }

  lemma CitedIsOp(ops: seq<HashDataRuns.Op>, n: nat, h: ByteString, id: nat)
    requires n <= |ops| && h in HashDataRuns.Run(ops, n) && id in HashDataRuns.Run(ops, n)[h].subs
    ensures exists op :: op in ops && op.source == id
  {
    HashDataRuns.StateOfRun(ops, n, h);
    HashDataRuns.SubCountsOfRun(ops, n, h, id);
    var i :| 0 <= i < n && ops[i].hash == h && ops[i].source == id;
    assert ops[i] in ops;
  }

  /** Each reported file hash is that of the one cited id it stands for. */
  lemma SourcesById(s: State, subs: map<nat, nat>, sources: map<ByteString, nat>, f: ByteString)
    requires IdsDense(s.ids)
    requires forall g :: g in s.ids ==> s.ids[g] in s.data && s.data[s.ids[g]].fileHash == g
    requires forall id :: id in subs ==> HasId(s.ids, id)
    requires forall id :: id in subs ==> id in s.data && s.data[id].fileHash in sources
    requires f in sources ==> Backed(s.data, subs, f, sources[f])
    ensures f in sources <==> f in s.ids && s.ids[f] in subs
    ensures f in sources ==> sources[f] == subs[s.ids[f]]
  {
    if f in sources {
      var id :| id in subs && id in s.data && s.data[id].fileHash == f && sources[f] == subs[id];
      assert HasId(s.ids, id);
    }
  }

  /** No two sources collapse into one: file hashes and ids are one to one. */
  lemma NoSourceCollapses(ids: map<ByteString, nat>, subs: map<nat, nat>, sources: map<ByteString, nat>)
    requires IdsDense(ids)
    requires forall id :: id in subs ==> HasId(ids, id)
    requires forall f :: f in sources <==> f in ids && ids[f] in subs
    ensures |sources| == |subs|
  {
    var image := set f | f in sources.Keys :: ids[f];
    forall id | id in subs
      ensures id in image
    {
      var f :| f in ids && ids[f] == id;
      assert f in sources.Keys;
    }
    assert image == subs.Keys;
    ImageSize(sources.Keys, ids);
  }

  lemma {:induction false} ImageSize(fs: set<ByteString>, ids: map<ByteString, nat>)
    requires fs <= ids.Keys
    requires forall f, g :: f in fs && g in fs && ids[f] == ids[g] ==> f == g
    ensures |set f | f in fs :: ids[f]| == |fs|
  {
    if fs == {} {
    } else {
      var f :| f in fs;
      ImageSize(fs - {f}, ids);
      var rest := set g | g in fs - {f} :: ids[g];
      assert (set g | g in fs :: ids[g]) == rest + {ids[f]};
      assert ids[f] !in rest;
    }
  }

  // ---------- the filter: when it can hide a stored hash ----------

  /** The count that call i of a history left in the hash data store. */
  function StoredAfter(ops: seq<HashDataRuns.Op>, i: nat): nat
    requires i < |ops|
  {
    HashDataRuns.After(HashDataRuns.State(ops, i, ops[i].hash), ops[i]).stored
  }

  /** Some call on a hash with this prefix left a count of zero. */
  ghost predicate Zeroed(ops: seq<HashDataRuns.Op>, prefix: ByteString) {
    exists i :: 0 <= i < |ops| && HashFilter.Prefix(ops[i].hash) == prefix && StoredAfter(ops, i) == 0
  }

  /** A zero in the filter, or on its way there, comes from such a call. */
  ghost predicate FilterZeros(s: State) {
    forall p :: p in s.filter && HashFilter.Decoded(s.filter[p]) == 0 ==> Zeroed(s.history, p)
  }

  ghost predicate PendingZero(th: Thread, ops: seq<HashDataRuns.Op>) {
    th.Running? && th.pc == AtFilter && th.call.OnHash() && th.count == 0 ==>
      Zeroed(ops, HashFilter.Prefix(th.call.blockHash))
  }

  ghost predicate ThreadZeros(s: State) {
    forall t :: 0 <= t < |s.threads| ==> PendingZero(s.threads[t], s.history)
  }

  lemma {:induction false} StatePrefix(a: seq<HashDataRuns.Op>, b: seq<HashDataRuns.Op>, n: nat, h: ByteString)
    requires n <= |a|
    ensures HashDataRuns.State(a + b, n, h) == HashDataRuns.State(a, n, h)
  {
    if n == 0 {
    } else {
      StatePrefix(a, b, n - 1, h);
    }
  }

  lemma ZeroedGrows(ops: seq<HashDataRuns.Op>, op: HashDataRuns.Op, prefix: ByteString)
    requires Zeroed(ops, prefix)
    ensures Zeroed(ops + [op], prefix)
  {
    var i :| 0 <= i < |ops| && HashFilter.Prefix(ops[i].hash) == prefix && StoredAfter(ops, i) == 0;
    StatePrefix(ops, [op], i, ops[i].hash);
    assert (ops + [op])[i] == ops[i];
    assert StoredAfter(ops + [op], i) == 0;
  }

  /** The count handed to the filter is zero just when the stored one is. */
  lemma ReturnedZero(s: State, op: HashDataRuns.Op)
    requires EntriesOk(s) && op.source > 0
    requires Returned(Lookup(s.entries, op.hash), op) == 0
    ensures Zeroed(s.history + [op], HashFilter.Prefix(op.hash))
  {
    var n := |s.history|;
    var ops := s.history + [op];
    HashDataRuns.StateOfRun(s.history, n, op.hash);
    HashDataRuns.StateOk(s.history, n, op.hash);
    StatePrefix(s.history, [op], n, op.hash);
    var prev := HashDataRuns.State(s.history, n, op.hash);
    HashDataRuns.AfterOk(prev, op);
    assert ops[n] == op;
    assert StoredAfter(ops, n) == HashDataRuns.After(prev, op).stored;
    ReturnedIsStored(prev, op);
  }

  lemma ReturnedIsStored(prev: Option<Entry>, op: HashDataRuns.Op)
    requires op.source > 0 && (prev.Some? ==> prev.value.Ok())
    ensures Returned(prev, op) == 0 <==> HashDataRuns.After(prev, op).stored == 0
  {
    HashDataRuns.AfterOk(prev, op);
  }

  lemma BodyZeros(s: State, t: nat)
    requires FilterZeros(s) && ThreadZeros(s) && EntriesOk(s)
    requires t < |s.threads| && s.threads[t].Running? && s.threads[t].pc == AtBody
    requires s.threads[t].call.OnHash() && s.threads[t].id > 0
    ensures FilterZeros(Body(s, t)) && ThreadZeros(Body(s, t))
  {
    var s' := Body(s, t);
    var op := s.threads[t].call.Op(s.threads[t].id);
    forall p | Zeroed(s.history, p)
      ensures Zeroed(s'.history, p)
    {
      ZeroedGrows(s.history, op, p);
    }
    forall i | 0 <= i < |s'.threads|
      ensures PendingZero(s'.threads[i], s'.history)
    {
      assert PendingZero(s.threads[i], s.history);
      if i == t && s'.threads[t].count == 0 {
        ReturnedZero(s, op);
      }
    }
  }

  lemma FilterStepZeros(s: State, t: nat)
    requires FilterZeros(s) && ThreadZeros(s)
    requires t < |s.threads| && s.threads[t].Running? && s.threads[t].pc == AtFilter && s.threads[t].call.OnHash()
    ensures FilterZeros(Filter(s, t)) && ThreadZeros(Filter(s, t))
  {
    var s' := Filter(s, t);
    assert PendingZero(s.threads[t], s.history);
    HashFilter.ZeroCode(s.threads[t].count);
    forall i | 0 <= i < |s'.threads|
      ensures PendingZero(s'.threads[i], s'.history)
    {
      assert PendingZero(s.threads[i], s.history);
    }
  }

  /** A step of thread t that leaves the filter, its queue of writers and the history. */
  ghost predicate Quiet(s: State, s': State, t: nat) {
    && Moved(s, s', t) && s'.filter == s.filter && s'.history == s.history
    && (s'.threads[t].Idle? || s'.threads[t].pc != AtFilter)
  }

  lemma OtherZeros(s: State, s': State, t: nat)
    requires FilterZeros(s) && ThreadZeros(s) && Quiet(s, s', t)
    ensures FilterZeros(s') && ThreadZeros(s')
  {
    forall i | 0 <= i < |s'.threads|
      ensures PendingZero(s'.threads[i], s'.history)
    {
      assert i != t ==> PendingZero(s.threads[i], s.history);
    }
  }

  /** Both, sealed by name as the parts of the invariant are. */
  datatype Zeros = Written | Pending

  ghost predicate HonestZero(z: Zeros, s: State) {
    match z
    case Written => FilterZeros(s)
    case Pending => ThreadZeros(s)
  }

  ghost predicate HonestZeros(s: State) {
    forall z :: HonestZero(z, s)
  }

  /** The event is a step that writes the hash data store or the filter. */
  predicate OnHashStores(s: State, e: Event) {
    && e.Advance? && e.t < |s.threads| && s.threads[e.t].Running?
    && s.threads[e.t].call.OnHash() && (s.threads[e.t].pc == AtBody || s.threads[e.t].pc == AtFilter)
  }

  lemma BookkeepingQuiet(s: State, t: nat)
    requires t < |s.threads| && s.threads[t].Running?
    ensures Quiet(s, GetId(s, t), t) && Quiet(s, Blank(s, t), t)
  {
  }

  lemma BodyQuiet(s: State, t: nat)
    requires t < |s.threads| && s.threads[t].Running? && !s.threads[t].call.OnHash()
    ensures Quiet(s, Body(s, t), t)
  {
  }

  lemma OtherSteps(s: State, e: Event)
    requires e.t < |s.threads| && ThreadOk(s, s.threads[e.t]) && !OnHashStores(s, e)
    ensures Next(s, e) == s || Quiet(s, Next(s, e), e.t)
  {
    if e.Advance? && s.threads[e.t].Running? {
      if s.threads[e.t].pc == AtBody {
        BodyQuiet(s, e.t);
      } else {
        BookkeepingQuiet(s, e.t);
      }
    }
  }

  lemma NextZeros(s: State, e: Event, n: nat)
    requires Good(s, n) && HonestZeros(s)
    ensures HonestZeros(Next(s, e))
  {
    assert HonestZero(Written, s) && HonestZero(Pending, s);
    if e.t < |s.threads| {
      PartsFromInv(s);
      assert ThreadOk(s, s.threads[e.t]);
      if OnHashStores(s, e) {
        if s.threads[e.t].pc == AtBody {
          BodyZeros(s, e.t);
        } else {
          FilterStepZeros(s, e.t);
        }
      } else {
        OtherSteps(s, e);
        if Next(s, e) != s {
          OtherZeros(s, Next(s, e), e.t);
        }
      }
    }
  }

  lemma ZerosOfRun(threads: nat, events: seq<Event>, k: nat, s: State) returns (s': State)
    requires k < |events| && k + 2 < TWO_TO_THE_64 && s == Reached(threads, events, k) && HonestZeros(s)
    ensures s' == Reached(threads, events, k + 1) && HonestZeros(s')
  {
    ReachedOk(threads, events, k);
    NextZeros(s, events[k], k);
    s' := Next(s, events[k]);
  }

  lemma {:induction false} ReachedZeros(threads: nat, events: seq<Event>, n: nat) returns (s: State)
    requires n <= |events| && n + 1 < TWO_TO_THE_64
    ensures s == Reached(threads, events, n) && HonestZeros(s)
  {
    if n == 0 {
      s := Init(threads);
    } else {
      var was := ReachedZeros(threads, events, n - 1);
      s := ZerosOfRun(threads, events, n - 1, was);
    }
  }

  /** At rest a stored hash is missed exactly when the filter's byte for its prefix
      says zero, and that needs a call on that prefix that left a count of zero. */
  lemma HiddenOnlyByZero(threads: nat, events: seq<Event>, h: ByteString)
    requires |events| + 1 < TWO_TO_THE_64
    requires AtRest(Reached(threads, events, |events|)) && h in Reached(threads, events, |events|).entries
    ensures var s, p := Reached(threads, events, |events|), HashFilter.Prefix(h);
            && p in s.filter
            && (Present(s, h) <==> HashFilter.Decoded(s.filter[p]) != 0)
            && (!Present(s, h) ==> Zeroed(s.history, p))
  {
    var s := ReachedZeros(threads, events, |events|);
    ReachedOk(threads, events, |events|);
    assert HonestZero(Written, s);
    PartsFromInv(s);
    assert !SomeFilters(s.threads, HashFilter.Prefix(h));
    StoredNotEmpty(s.history, |s.history|, h);
  }

  // ---------- which runs hide a stored hash ----------

  /** The event is the filter step of a call on this hash, or on one that shares its byte. */
  predicate WritesFilter(s: State, e: Event, h: ByteString) {
    && e.Advance? && e.t < |s.threads| && s.threads[e.t].Running? && s.threads[e.t].pc == AtFilter
    && s.threads[e.t].call.OnHash() && HashFilter.SameByte(s.threads[e.t].call.blockHash, h)
  }

  /** The count that the latest filter step on the hash or one with its first seven bytes
      carried, if there was one. */
  function LastWrite(threads: nat, events: seq<Event>, n: nat, h: ByteString): Option<U64>
    requires n <= |events|
  {
    if n == 0 then None else
      var s, e := Reached(threads, events, n - 1), events[n - 1];
      if WritesFilter(s, e, h) then Some(s.threads[e.t].count) else LastWrite(threads, events, n - 1, h)
  }

  lemma FilterStep(s: State, e: Event, h: ByteString)
    ensures Lookup(Next(s, e).filter, HashFilter.Prefix(h))
            == if WritesFilter(s, e, h) then Some(HashFilter.Code(s.threads[e.t].count))
               else Lookup(s.filter, HashFilter.Prefix(h))
  {
    if e.t < |s.threads| && s.threads[e.t].Running? && s.threads[e.t].call.OnHash() {
      HashFilter.PrefixIsSevenBytes(s.threads[e.t].call.blockHash, h);
    }
  }

  /** In every state the filter's byte is the code of the latest count written. */
  lemma {:induction false} FilterIsLastWrite(threads: nat, events: seq<Event>, n: nat, h: ByteString)
    requires n <= |events|
    ensures var last := LastWrite(threads, events, n, h);
            Lookup(Reached(threads, events, n).filter, HashFilter.Prefix(h))
            == if last.Some? then Some(HashFilter.Code(last.value)) else None
  {
    if n == 0 {
    } else {
      FilterIsLastWrite(threads, events, n - 1, h);
      FilterStep(Reached(threads, events, n - 1), events[n - 1], h);
    }
  }

  /** At rest a stored hash is found exactly when the latest call to write the filter
      for its first seven bytes carried a count other than zero. */
  lemma FoundByLastWrite(threads: nat, events: seq<Event>, h: ByteString)
    requires |events| + 1 < TWO_TO_THE_64
    requires AtRest(Reached(threads, events, |events|)) && h in Reached(threads, events, |events|).entries
    ensures var last := LastWrite(threads, events, |events|, h);
            last.Some? && (Present(Reached(threads, events, |events|), h) <==> last.value != 0)
  {
    var last := LastWrite(threads, events, |events|, h);
    HiddenOnlyByZero(threads, events, h);
    FilterIsLastWrite(threads, events, |events|, h);
    assert last.Some?;
    HashFilter.ZeroCode(last.value);
  }

  lemma StoredNotEmpty(ops: seq<HashDataRuns.Op>, n: nat, h: ByteString)
    requires n <= |ops| && HashDataRuns.Accepted(ops) && h in HashDataRuns.Run(ops, n)
    ensures h != []
  {
    HashDataRuns.StateOfRun(ops, n, h);
    HashDataRuns.SubCountsOfRun(ops, n, h, 0);
    var i :| 0 <= i < n && ops[i].hash == h;
    assert ops[i] in ops;
  }

  /** A report that is the stored entry, with exactly its sources, each under its own
      file hash with its own sub-count. */
  ghost predicate Exact(s: State, e: Entry, kEntropy: nat, blockLabel: ByteString, count: nat,
                        sources: map<ByteString, nat>)
  {
    && kEntropy == e.kEntropy && blockLabel == e.blockLabel && count == e.Count()
    && |sources| == |e.subs|
    && (forall f :: f in sources <==> f in s.ids && s.ids[f] in e.subs)
    && (forall f :: f in sources ==> sources[f] == e.subs[s.ids[f]])
  }

  /** When no call is in progress find_hash never fails, finds a hash exactly when it is
      stored and the latest write of its filter byte was not of zero, and reports all. */
  lemma ReportAtRest(threads: nat, events: seq<Event>, h: ByteString, found: bool, failed: bool, kEntropy: nat,
                     blockLabel: ByteString, count: nat, sources: map<ByteString, nat>)
    requires |events| + 1 < TWO_TO_THE_64 && AtRest(Reached(threads, events, |events|))
    requires Reports(Reached(threads, events, |events|), h, found, failed, kEntropy, blockLabel, count, sources)
    ensures var s, last := Reached(threads, events, |events|),
                           LastWrite(threads, events, |events|, h);
            && !failed && (found <==> h in s.entries && last != Some(0))
            && (!Zeroed(s.history, HashFilter.Prefix(h)) ==> (found <==> h in s.entries))
            && (found ==> Exact(s, s.entries[h], kEntropy, blockLabel, count, sources))
  {
    var s := Reached(threads, events, |events|);
    ReachedOk(threads, events, |events|);
    if h in s.entries {
      HiddenOnlyByZero(threads, events, h);
      FoundByLastWrite(threads, events, h);
      CitedSourcesKnown(s, h);
      if found {
        AllReported(s, h, sources);
      }
    }
  }

  lemma AllReported(s: State, h: ByteString, sources: map<ByteString, nat>)
    requires Inv(s) && AtRest(s) && h in s.entries && SourcesRead(s.data, s.entries[h].subs, sources)
    ensures var subs := s.entries[h].subs;
            && |sources| == |subs|
            && (forall f :: f in sources <==> f in s.ids && s.ids[f] in subs)
            && (forall f :: f in sources ==> sources[f] == subs[s.ids[f]])
  {
    CitedSourcesKnown(s, h);
    RecordsComplete(s);
    forall f
      ensures f in sources <==> f in s.ids && s.ids[f] in s.entries[h].subs
      ensures f in sources ==> sources[f] == s.entries[h].subs[s.ids[f]]
    {
      SourcesById(s, s.entries[h].subs, sources, f);
    }
    NoSourceCollapses(s.ids, s.entries[h].subs, sources);
  }

  // ---------- when no call leaves a zero ----------

  /** The calls as the code expects them: merged sub-counts are positive, and no hash
      is counted 2^31 times. */
  ghost predicate Ordinary(ops: seq<HashDataRuns.Op>) {
    && HashDataRuns.Accepted(ops)
    && (forall op :: op in ops && op.Merge? ==> op.subCount > 0)
    && TotalsBounded(ops)
  }

  ghost predicate TotalsBounded(ops: seq<HashDataRuns.Op>) {
    forall h :: HashDataRuns.Total(ops, |ops|, h) < 0x8000_0000
  }

  lemma {:induction false} TotalGrows(ops: seq<HashDataRuns.Op>, m: nat, n: nat, h: ByteString)
    requires m <= n <= |ops|
    ensures HashDataRuns.Total(ops, m, h) <= HashDataRuns.Total(ops, n, h)
  {
    if m >= n {
    } else {
      TotalGrows(ops, m, n - 1, h);
    }
  }

  lemma {:induction false} CountedPositive(ops: seq<HashDataRuns.Op>, n: nat, h: ByteString, source: nat)
    requires n <= |ops| && HashDataRuns.Cited(ops, n, h, source)
    requires forall op :: op in ops && op.Merge? ==> op.subCount > 0
    ensures HashDataRuns.Counted(ops, n, h, source) > 0
  {
    assert ops[n - 1] in ops;
    if !HashDataRuns.Cited(ops, n - 1, h, source) {
    } else {
      CountedPositive(ops, n - 1, h, source);
    }
  }

  lemma {:induction false} SumAtLeast(m: map<nat, nat>, k: nat)
    requires k in m
    ensures MapSums.Sum(m) >= m[k]
  {
    MapSums.SumSplit(m, k);
  }

  /** Ordinary calls never leave a zero, so the filter hides nothing. */
  lemma OrdinaryNeverZeroes(ops: seq<HashDataRuns.Op>, prefix: ByteString)
    requires Ordinary(ops)
    ensures !Zeroed(ops, prefix)
  {
    forall i | 0 <= i < |ops|
      ensures StoredAfter(ops, i) > 0
    {
      var h, source := ops[i].hash, ops[i].source;
      assert HashDataRuns.Cited(ops, i + 1, h, source);
      TotalGrows(ops, i + 1, |ops|, h);
      CountedPositive(ops, i + 1, h, source);
      HashDataRuns.SubCountsOfRun(ops, i + 1, h, source);
      HashDataRuns.CountBetweenSumAndTotal(ops, i + 1, h);
      SumAtLeast(HashDataRuns.State(ops, i + 1, h).value.subs, source);
    }
  }

  ghost predicate PositiveMerges(events: seq<Event>) {
    forall e :: e in events && e.Begin? && e.call.MergeHash? ==> e.call.subCount > 0
  }

  ghost predicate PositiveCall(th: Thread) {
    th.Running? && th.call.MergeHash? ==> th.call.subCount > 0
  }

  ghost predicate Positive(s: State) {
    && (forall op :: op in s.history && op.Merge? ==> op.subCount > 0)
    && (forall t :: 0 <= t < |s.threads| ==> PositiveCall(s.threads[t]))
  }

  /** Thread t alone moved, still with its call. */
  ghost predicate SameCalls(s: State, s': State, t: nat) {
    && t < |s.threads| == |s'.threads|
    && (forall i :: 0 <= i < |s.threads| && i != t ==> s'.threads[i] == s.threads[i])
    && (s'.threads[t].Running? ==> s.threads[t].Running? && s'.threads[t].call == s.threads[t].call)
  }

  lemma HashBodyCalls(s: State, t: nat)
    requires t < |s.threads| && s.threads[t].Running? && s.threads[t].call.OnHash()
    ensures SameCalls(s, HashBody(s, t), t)
  {
  }

  lemma BodyCalls(s: State, t: nat)
    requires t < |s.threads| && s.threads[t].Running?
    ensures SameCalls(s, Body(s, t), t)
  {
    if s.threads[t].call.OnHash() {
      HashBodyCalls(s, t);
    }
  }

  lemma BookkeepingCalls(s: State, t: nat)
    requires t < |s.threads| && s.threads[t].Running?
    ensures SameCalls(s, GetId(s, t), t) && SameCalls(s, Filter(s, t), t) && SameCalls(s, Blank(s, t), t)
  {
  }

  /** A call is what it was when it began. */
  lemma StepCalls(s: State, t: nat)
    requires t < |s.threads| && s.threads[t].Running?
    ensures SameCalls(s, Step(s, t), t)
  {
    BodyCalls(s, t);
    BookkeepingCalls(s, t);
  }

  lemma CallsKept(s: State, e: Event, i: nat)
    requires i < |s.threads|
    ensures |Next(s, e).threads| == |s.threads|
    ensures var th := Next(s, e).threads[i];
            th.Running? ==> (s.threads[i].Running? && th.call == s.threads[i].call) || (e.Begin? && th.call == e.call)
  {
    if e.Advance? && e.t < |s.threads| && s.threads[e.t].Running? {
      StepCalls(s, e.t);
    }
  }

  /** A step appends at most its thread's own call to the history. */
  ghost predicate OwnCall(s: State, s': State, t: nat) {
    || s'.history == s.history
    || (t < |s.threads| && s.threads[t].Running? && s.threads[t].call.OnHash()
        && s'.history == s.history + [s.threads[t].call.Op(s.threads[t].id)])
  }

  lemma StepHistory(s: State, t: nat)
    requires t < |s.threads| && s.threads[t].Running?
    ensures OwnCall(s, Step(s, t), t)
  {
    if s.threads[t].pc == AtBody {
      if !s.threads[t].call.OnHash() {
        BodyQuiet(s, t);
      }
    } else {
      BookkeepingQuiet(s, t);
      assert Filter(s, t).history == s.history;
    }
  }

  lemma HistoryKept(s: State, e: Event)
    ensures OwnCall(s, Next(s, e), e.t)
  {
    if e.Advance? && e.t < |s.threads| && s.threads[e.t].Running? {
      StepHistory(s, e.t);
    }
  }

  lemma NextPositive(s: State, e: Event)
    requires Positive(s) && (e.Begin? && e.call.MergeHash? ==> e.call.subCount > 0)
    ensures Positive(Next(s, e))
  {
    HistoryKept(s, e);
    assert e.t < |s.threads| ==> PositiveCall(s.threads[e.t]);
    forall op | op in Next(s, e).history && op.Merge?
      ensures op.subCount > 0
    {
    }
    assert |Next(s, e).threads| == |s.threads|;
    forall i | 0 <= i < |s.threads|
      ensures PositiveCall(Next(s, e).threads[i])
    {
      CallsKept(s, e, i);
      assert PositiveCall(s.threads[i]);
    }
  }

  /** The store only ever sees sub-counts that some caller passed. */
  lemma {:induction false} MergesPositive(threads: nat, events: seq<Event>, n: nat)
    requires n <= |events| && PositiveMerges(events)
    ensures Positive(Reached(threads, events, n))
  {
    if n == 0 {
    } else {
      MergesPositive(threads, events, n - 1);
      assert events[n - 1] in events;
      NextPositive(Reached(threads, events, n - 1), events[n - 1]);
    }
  }

  /** With positive sub-counts and fewer than 2^31 counts of any hash, a find at rest
      finds a hash exactly when the hash data store holds it. */
  lemma FilterHidesNothing(threads: nat, events: seq<Event>, h: ByteString)
    requires |events| + 1 < TWO_TO_THE_64 && AtRest(Reached(threads, events, |events|))
    requires PositiveMerges(events)
    requires TotalsBounded(Reached(threads, events, |events|).history)
    ensures var s := Reached(threads, events, |events|);
            Present(s, h) <==> h in s.entries
  {
    var s := Reached(threads, events, |events|);
    ReachedOk(threads, events, |events|);
    PartsFromInv(s);
    MergesPositive(threads, events, |events|);
    OrdinaryNeverZeroes(s.history, HashFilter.Prefix(h));
    if h in s.entries {
      HiddenOnlyByZero(threads, events, h);
    }
  }

  /** One thread runs one call on a hash from start to end. */
  function Whole(s: State, call: Call): State {
    Next(Next(Next(Next(Next(s, Begin(0, call)), Advance(0)), Advance(0)), Advance(0)), Advance(0))
  }

  lemma WholeCall(s: State, call: Call, op: HashDataRuns.Op)
    requires s.threads == [Idle] && call.OnHash() && call.Accepted()
    requires op == call.Op(IdOf(WithId(s.ids, call.fileHash)[call.fileHash]))
    ensures var s' := Whole(s, call);
            var prev := Lookup(s.entries, op.hash);
            && s'.threads == [Idle]
            && s'.ids == WithId(s.ids, call.fileHash)
            && s'.entries == s.entries[op.hash := HashDataRuns.After(prev, op)]
            && s'.filter == s.filter[HashFilter.Prefix(op.hash) := HashFilter.Code(Returned(prev, op))]
  {
  }

  /** A merged sub-count of zero hides even another hash that was stored before with
      the same seven-byte prefix. */
  lemma ZeroMergeHides(f: ByteString, g: ByteString, h: ByteString)
    requires Lmdb.IsKey(f) && Lmdb.IsKey(g) && Lmdb.IsKey(h) && h != g && |g| >= 7 && |h| >= 7 && g[..7] == h[..7]
    ensures var s := Whole(Whole(Init(1), InsertHash(g, 0, [], f)), MergeHash(h, 0, [], f, 0));
            AtRest(s) && g in s.entries && s.entries[g].subs == map[1 := 1] && !Present(s, g)
  {
    HashFilter.PrefixIsSevenBytes(g, h);
    var s := Whole(Init(1), InsertHash(g, 0, [], f));
    FirstInsert(f, g);
    WholeCall(s, MergeHash(h, 0, [], f, 0), HashDataRuns.Merge(h, 0, [], 1, 0));
    NothingMerged(h);
    HashFilter.ZeroCode(0);
  }

  /** Merging a source that is there hands the filter the sign-extended count, and one of
      2^64 - 5 makes the filter's answer the greatest there is. */
  lemma FilterOverReports(f: ByteString, g: ByteString, h: ByteString)
    requires Lmdb.IsKey(f) && Lmdb.IsKey(g) && Lmdb.IsKey(h) && f != g
    ensures var again := MergeHash(h, 0, [], g, 0xffff_fffa);
            var s := Whole(Whole(Whole(Init(1), MergeHash(h, 0, [], f, 1)), again), again);
            && AtRest(s) && Present(s, h) && s.entries[h].Count() == TWO_TO_THE_64 - 5
            && HashFilter.Decoded(s.filter[HashFilter.Prefix(h)]) == TWO_TO_THE_64 - 1
  {
    var again := MergeHash(h, 0, [], g, 0xffff_fffa);
    var s1 := Whole(Init(1), MergeHash(h, 0, [], f, 1));
    FirstMerge(f, h);
    SecondMerge(s1, f, g, h);
    ThirdMerge(Whole(s1, again), f, g, h);
  }

  lemma FirstMerge(f: ByteString, h: ByteString)
    requires Lmdb.IsKey(f) && Lmdb.IsKey(h)
    ensures var s := Whole(Init(1), MergeHash(h, 0, [], f, 1));
            s.threads == [Idle] && s.ids == map[f := 1] && s.entries == map[h := Entry(0, [], 1, map[1 := 1])]
  {
    WholeCall(Init(1), MergeHash(h, 0, [], f, 1), HashDataRuns.Merge(h, 0, [], 1, 1));
  }

  lemma SecondMerge(s: State, f: ByteString, g: ByteString, h: ByteString)
    requires Lmdb.IsKey(g) && Lmdb.IsKey(h) && f != g
    requires s.threads == [Idle] && s.ids == map[f := 1] && s.entries == map[h := Entry(0, [], 1, map[1 := 1])]
    ensures var s' := Whole(s, MergeHash(h, 0, [], g, 0xffff_fffa));
            && s'.threads == [Idle] && g in s'.ids && s'.ids[g] == 2
            && h in s'.entries && s'.entries[h] == Entry(0, [], 0xffff_fffb, map[1 := 1, 2 := 0xffff])
  {
    WholeCall(s, MergeHash(h, 0, [], g, 0xffff_fffa), HashDataRuns.Merge(h, 0, [], 2, 0xffff_fffa));
  }

  lemma ThirdMerge(s: State, f: ByteString, g: ByteString, h: ByteString)
    requires Lmdb.IsKey(g) && Lmdb.IsKey(h)
    requires s.threads == [Idle] && g in s.ids && s.ids[g] == 2
    requires h in s.entries && s.entries[h] == Entry(0, [], 0xffff_fffb, map[1 := 1, 2 := 0xffff])
    ensures var s' := Whole(s, MergeHash(h, 0, [], g, 0xffff_fffa));
            && AtRest(s') && Present(s', h) && s'.entries[h].Count() == TWO_TO_THE_64 - 5
            && HashFilter.Decoded(s'.filter[HashFilter.Prefix(h)]) == TWO_TO_THE_64 - 1
  {
    var op := HashDataRuns.Merge(h, 0, [], 2, 0xffff_fffa);
    WholeCall(s, MergeHash(h, 0, [], g, 0xffff_fffa), op);
    KnownSource(s.entries[h], op);
    HashFilter.ZeroByte(TWO_TO_THE_64 - 5);
  }

  lemma KnownSource(e: Entry, op: HashDataRuns.Op)
    requires op.Merge? && op.source in e.subs
    ensures HashDataRuns.After(Some(e), op) == e && Returned(Some(e), op) == e.Count()
  {
  }

  lemma FirstInsert(f: ByteString, g: ByteString)
    requires Lmdb.IsKey(f) && Lmdb.IsKey(g)
    ensures var s := Whole(Init(1), InsertHash(g, 0, [], f));
            s.threads == [Idle] && s.ids == map[f := 1] && s.entries == map[g := Entry(0, [], 1, map[1 := 1])]
  {
    WholeCall(Init(1), InsertHash(g, 0, [], f), HashDataRuns.Insert(g, 0, [], 1));
  }

  lemma NothingMerged(h: ByteString)
    ensures Returned(None, HashDataRuns.Merge(h, 0, [], 1, 0)) == 0
  {
  }
}
