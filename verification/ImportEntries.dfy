/** What the hash calls of a log, in the order in which they reached the hash data store, say
    of one hash: its sources by file hash, their counts, its entropy and label. */
module ImportEntries {
  import opened ByteStrings
  import opened HashDataModel
  import opened ImportCalls
  import opened ImportManager
  import HashDataRuns
  import ScanManager

  predicate On(call: Call, h: ByteString) {
    call.OnHash() && call.blockHash == h
  }

  predicate OnPair(call: Call, h: ByteString, f: ByteString) {
    On(call, h) && call.fileHash == f
  }

  ghost predicate CitedIn(log: seq<Call>, h: ByteString, f: ByteString) {
    exists i :: 0 <= i < |log| && OnPair(log[i], h, f)
  }

  /** How often the calls count f for h: an insert once, a merge by its sub-count when it is
      the first call to bring f to h. */
  ghost function Ideal(log: seq<Call>, h: ByteString, f: ByteString): nat {
    if log == [] then 0 else
      var call, rest := log[|log| - 1], log[..|log| - 1];
      Ideal(rest, h, f) + (if !OnPair(call, h, f) then 0 else if call.InsertHash? then 1
                           else if CitedIn(rest, h, f) then 0 else call.subCount)
  }

  ghost predicate FirstOn(log: seq<Call>, i: nat, h: ByteString) {
    i < |log| && On(log[i], h) && forall j :: 0 <= j < i ==> !On(log[j], h)
  }

  ghost predicate OneToOne(ids: map<ByteString, nat>) {
    && (forall f :: f in ids ==> ids[f] < TWO_TO_THE_64)
    && (forall f, g :: f in ids && g in ids && ids[f] == ids[g] ==> f == g)
  }

  // ---------- one more operation ----------

  lemma CitedBefore(ops: seq<HashDataRuns.Op>, op: HashDataRuns.Op, n: nat, h: ByteString, id: nat)
    requires n <= |ops|
    ensures HashDataRuns.Cited(ops + [op], n, h, id) <==> HashDataRuns.Cited(ops, n, h, id)
  {
    if HashDataRuns.Cited(ops + [op], n, h, id) {
      var i :| 0 <= i < n && (ops + [op])[i].hash == h && (ops + [op])[i].source == id;
      assert ops[i].hash == h;
    }
    if HashDataRuns.Cited(ops, n, h, id) {
      var i :| 0 <= i < n && ops[i].hash == h && ops[i].source == id;
      assert (ops + [op])[i].hash == h;
    }
  }

  lemma WeightBefore(ops: seq<HashDataRuns.Op>, op: HashDataRuns.Op, i: nat)
    requires i < |ops|
    ensures HashDataRuns.Weight(ops + [op], i) == HashDataRuns.Weight(ops, i)
  {
    CitedBefore(ops, op, i, ops[i].hash, ops[i].source);
  }

  lemma {:induction false} CountedBefore(ops: seq<HashDataRuns.Op>, op: HashDataRuns.Op, n: nat, h: ByteString, id: nat)
    requires n <= |ops|
    ensures HashDataRuns.Counted(ops + [op], n, h, id) == HashDataRuns.Counted(ops, n, h, id)
    ensures HashDataRuns.Total(ops + [op], n, h) == HashDataRuns.Total(ops, n, h)
  {
    if n == 0 {
    } else {
      CountedBefore(ops, op, n - 1, h, id);
      WeightBefore(ops, op, n - 1);
    }
  }

  ghost function WeightAfter(ops: seq<HashDataRuns.Op>, op: HashDataRuns.Op): nat {
    if op.Insert? then 1 else if HashDataRuns.Cited(ops, |ops|, op.hash, op.source) then 0 else op.subCount
  }

  lemma CountedOneMore(ops: seq<HashDataRuns.Op>, op: HashDataRuns.Op, h: ByteString, id: nat)
    ensures HashDataRuns.Counted(ops + [op], |ops| + 1, h, id)
              == HashDataRuns.Counted(ops, |ops|, h, id)
                 + (if op.hash == h && op.source == id then WeightAfter(ops, op) else 0)
    ensures HashDataRuns.Total(ops + [op], |ops| + 1, h)
              == HashDataRuns.Total(ops, |ops|, h) + (if op.hash == h then WeightAfter(ops, op) else 0)
  {
    CountedBefore(ops, op, |ops|, h, id);
    CitedBefore(ops, op, |ops|, op.hash, op.source);
    assert (ops + [op])[|ops|] == op;
  }

  lemma CitedOneMore(ops: seq<HashDataRuns.Op>, op: HashDataRuns.Op, h: ByteString, id: nat)
    ensures HashDataRuns.Cited(ops + [op], |ops| + 1, h, id) <==>
              HashDataRuns.Cited(ops, |ops|, h, id) || (op.hash == h && op.source == id)
  {
    CitedBefore(ops, op, |ops|, h, id);
    assert (ops + [op])[|ops|] == op;
  }

  lemma StateOneMore(ops: seq<HashDataRuns.Op>, op: HashDataRuns.Op, h: ByteString)
    ensures var was := HashDataRuns.State(ops, |ops|, h);
            HashDataRuns.State(ops + [op], |ops| + 1, h)
            == if op.hash == h then Some(HashDataRuns.After(was, op)) else was
  {
    ScanManager.StatePrefix(ops, [op], |ops|, h);
    assert (ops + [op])[|ops|] == op;
  }

  lemma CitedInOneMore(log: seq<Call>, call: Call, h: ByteString, f: ByteString)
    ensures CitedIn(log + [call], h, f) <==> CitedIn(log, h, f) || OnPair(call, h, f)
  {
    var longer := log + [call];
    assert longer[|log|] == call;
    if CitedIn(log, h, f) {
      var i :| 0 <= i < |log| && OnPair(log[i], h, f);
      assert OnPair(longer[i], h, f);
    }
  }

  lemma OpOfCall(call: Call, ids: map<ByteString, nat>, h: ByteString, f: ByteString)
    requires call.OnHash() && OneToOne(ids) && call.fileHash in ids && f in ids
    ensures var op := call.Op(IdOf(ids[call.fileHash]));
            && (op.hash == h && op.source == ids[f] <==> OnPair(call, h, f))
            && (op.Insert? <==> call.InsertHash?) && (op.Merge? ==> call.MergeHash? && op.subCount == call.subCount)
  {
  }

  // ---------- sources and counts ----------

  lemma PairStep(log: seq<Call>, ids: map<ByteString, nat>, call: Call, h: ByteString, f: ByteString)
    requires Known(log, ids) && OneToOne(ids) && f in ids && call.fileHash in ids && call.OnHash()
    requires var ops := HashOps(log, ids);
             && (HashDataRuns.Cited(ops, |ops|, h, ids[f]) <==> CitedIn(log, h, f))
             && HashDataRuns.Counted(ops, |ops|, h, ids[f]) == Ideal(log, h, f)
    ensures var ops := HashOps(log, ids) + [call.Op(IdOf(ids[call.fileHash]))];
            && (HashDataRuns.Cited(ops, |ops|, h, ids[f]) <==> CitedIn(log + [call], h, f))
            && HashDataRuns.Counted(ops, |ops|, h, ids[f]) == Ideal(log + [call], h, f)
  {
    var ops, op := HashOps(log, ids), call.Op(IdOf(ids[call.fileHash]));
    OpOfCall(call, ids, h, f);
    CitedOneMore(ops, op, h, ids[f]);
    CountedOneMore(ops, op, h, ids[f]);
    CitedInOneMore(log, call, h, f);
    assert (log + [call])[..|log|] == log;
  }

  /** The store's ideal counts are those of the calls, by file hash. */
  lemma {:induction false} CountsOfLog(log: seq<Call>, ids: map<ByteString, nat>, h: ByteString, f: ByteString)
    requires Known(log, ids) && OneToOne(ids) && f in ids
    ensures var ops := HashOps(log, ids);
            && (HashDataRuns.Cited(ops, |ops|, h, ids[f]) <==> CitedIn(log, h, f))
            && HashDataRuns.Counted(ops, |ops|, h, ids[f]) == Ideal(log, h, f)
  {
    if log == [] {
    } else {
      var call, rest := log[|log| - 1], log[..|log| - 1];
      CountsOfLog(rest, ids, h, f);
      assert log == rest + [call] && call.fileHash in ids;
      if call.OnHash() {
        PairStep(rest, ids, call, h, f);
      } else {
        assert HashOps(log, ids) == HashOps(rest, ids);
        CitedInOneMore(rest, call, h, f);
      }
    }
  }

  // ---------- totals ----------

  /** What the calls count for h over all sources. */
  ghost function IdealTotal(log: seq<Call>, h: ByteString): nat {
    if log == [] then 0 else
      var call, rest := log[|log| - 1], log[..|log| - 1];
      IdealTotal(rest, h) + (if !On(call, h) then 0 else if call.InsertHash? then 1
                             else if CitedIn(rest, h, call.fileHash) then 0 else call.subCount)
  }

  lemma TotalStep(log: seq<Call>, ids: map<ByteString, nat>, call: Call, h: ByteString)
    requires Known(log, ids) && OneToOne(ids) && call.fileHash in ids && call.OnHash()
    ensures var ops := HashOps(log, ids); var op := call.Op(IdOf(ids[call.fileHash]));
            HashDataRuns.Total(ops + [op], |ops| + 1, h) - HashDataRuns.Total(ops, |ops|, h)
            == IdealTotal(log + [call], h) - IdealTotal(log, h)
  {
    var ops, op := HashOps(log, ids), call.Op(IdOf(ids[call.fileHash]));
    CountedOneMore(ops, op, h, op.source);
    CountsOfLog(log, ids, call.blockHash, call.fileHash);
    OpOfCall(call, ids, h, call.fileHash);
    assert (log + [call])[..|log|] == log;
  }

  lemma {:induction false} TotalOfLog(log: seq<Call>, ids: map<ByteString, nat>, h: ByteString)
    requires Known(log, ids) && OneToOne(ids)
    ensures HashDataRuns.Total(HashOps(log, ids), |HashOps(log, ids)|, h) == IdealTotal(log, h)
  {
    if log == [] {
    } else {
      var call, rest := log[|log| - 1], log[..|log| - 1];
      TotalOfLog(rest, ids, h);
      assert log == rest + [call] && call.fileHash in ids;
      if call.OnHash() {
        TotalStep(rest, ids, call, h);
      } else {
        assert HashOps(log, ids) == HashOps(rest, ids);
      }
    }
  }

  // ---------- inserts alone ----------

  ghost function InsertsOf(h: ByteString, f: ByteString): Call -> bool {
    (c: Call) => c.InsertHash? && c.blockHash == h && c.fileHash == f
  }

  ghost function InsertsInto(h: ByteString): Call -> bool {
    (c: Call) => c.InsertHash? && c.blockHash == h
  }

  ghost predicate NoMerges(log: seq<Call>) {
    forall i :: 0 <= i < |log| ==> !log[i].MergeHash?
  }

  lemma {:induction false} IdealOfInserts(log: seq<Call>, h: ByteString, f: ByteString)
    requires NoMerges(log)
    ensures Ideal(log, h, f) == Logged(log, InsertsOf(h, f))
    ensures IdealTotal(log, h) == Logged(log, InsertsInto(h)) <= |log|
    ensures CitedIn(log, h, f) <==> Ideal(log, h, f) > 0
    ensures (exists i :: 0 <= i < |log| && On(log[i], h)) <==> IdealTotal(log, h) > 0
  {
    if log == [] {
    } else {
      var call, rest := log[|log| - 1], log[..|log| - 1];
      IdealOfInserts(rest, h, f);
      assert log == rest + [call] && !call.MergeHash?;
      CitedInOneMore(rest, call, h, f);
      if i :| 0 <= i < |rest| && On(rest[i], h) {
        assert On(log[i], h);
      }
    }
  }

  // ---------- entropy and label ----------

  /** The fields come from this call, which gives ten bytes of its label or all. */
  ghost predicate HeadFrom(kEntropy: nat, blockLabel: ByteString, call: Call) {
    && call.OnHash() && kEntropy == call.kEntropy
    && blockLabel <= call.blockLabel && |blockLabel| == if |call.blockLabel| <= 10 then |call.blockLabel| else 10
  }

  ghost predicate HeadOk(log: seq<Call>, e: Option<Entry>, h: ByteString) {
    if e.None? then forall j :: 0 <= j < |log| ==> !On(log[j], h)
    else exists i :: 0 <= i && FirstOn(log, i, h) && HeadFrom(e.value.kEntropy, e.value.blockLabel, log[i])
  }

  lemma HeadKept(log: seq<Call>, e: Entry, more: Entry, h: ByteString, call: Call)
    requires HeadOk(log, Some(e), h) && more.kEntropy == e.kEntropy && more.blockLabel == e.blockLabel
    ensures HeadOk(log + [call], Some(more), h)
  {
    var i :| 0 <= i && FirstOn(log, i, h) && HeadFrom(e.kEntropy, e.blockLabel, log[i]);
    var longer := log + [call];
    assert longer[i] == log[i] && forall j :: 0 <= j < i ==> longer[j] == log[j];
    assert FirstOn(longer, i, h);
  }

  lemma HeadNew(log: seq<Call>, call: Call, op: HashDataRuns.Op, h: ByteString)
    requires HeadOk(log, None, h) && On(call, h)
    requires op.hash == h && op.kEntropy == call.kEntropy && op.blockLabel == call.blockLabel
    ensures HeadOk(log + [call], Some(HashDataRuns.After(None, op)), h)
  {
    HashDataRuns.FirstWriterAfter(None, op);
    var longer := log + [call];
    assert longer[|log|] == call && forall j :: 0 <= j < |log| ==> longer[j] == log[j];
    assert FirstOn(longer, |log|, h);
  }

  lemma HeadOfOther(log: seq<Call>, e: Option<Entry>, h: ByteString, call: Call)
    requires HeadOk(log, e, h) && !On(call, h)
    ensures HeadOk(log + [call], e, h)
  {
    var longer := log + [call];
    assert longer[|log|] == call && forall j :: 0 <= j < |log| ==> longer[j] == log[j];
    if e.Some? {
      HeadKept(log, e.value, e.value, h, call);
    }
  }

  lemma HeadStep(log: seq<Call>, e: Option<Entry>, h: ByteString, call: Call, op: HashDataRuns.Op)
    requires HeadOk(log, e, h) && On(call, h)
    requires op.hash == h && op.kEntropy == call.kEntropy && op.blockLabel == call.blockLabel
    ensures HeadOk(log + [call], Some(HashDataRuns.After(e, op)), h)
  {
    if e.Some? {
      HashDataRuns.FirstWriterAfter(e, op);
      HeadKept(log, e.value, HashDataRuns.After(e, op), h, call);
    } else {
      HeadNew(log, call, op, h);
    }
  }

  /** The first call on a hash gives its entropy and its label. */
  lemma {:induction false} HeadOfLog(log: seq<Call>, ids: map<ByteString, nat>, h: ByteString)
    requires Known(log, ids)
    ensures var ops := HashOps(log, ids); HeadOk(log, HashDataRuns.State(ops, |ops|, h), h)
  {
    if log == [] {
    } else {
      var call, rest := log[|log| - 1], log[..|log| - 1];
      HeadOfLog(rest, ids, h);
      assert log == rest + [call] && call.fileHash in ids;
      var ops := HashOps(rest, ids);
      var e := HashDataRuns.State(ops, |ops|, h);
      if call.OnHash() {
        var op := call.Op(IdOf(ids[call.fileHash]));
        StateOneMore(ops, op, h);
        if call.blockHash == h {
          HeadStep(rest, e, h, call, op);
        } else {
          HeadOfOther(rest, e, h, call);
        }
      } else {
        assert HashOps(log, ids) == ops;
        HeadOfOther(rest, e, h, call);
      }
    }
  }
}
