/** import_manager_t and scan_manager_t::find_hash over the stores: any number of
    threads run import calls, each store operation atomic, interleaved at will. */
module ImportManager {
  import opened ByteStrings
  import opened HashDataRecords
  import opened HashDataModel
  import opened Sources
  import HashDataRuns
  import HashFilter
  import Lmdb

  datatype SourceData = SourceData(fileHash: ByteString, info: Info)

  datatype Call =
    | InsertSourceName(fileHash: ByteString, repository: ByteString, filename: ByteString)
    | InsertSourceData(fileHash: ByteString, info: Info)
    | InsertHash(blockHash: ByteString, kEntropy: U64, blockLabel: ByteString, fileHash: ByteString)
    | MergeHash(blockHash: ByteString, kEntropy: U64, blockLabel: ByteString, fileHash: ByteString, subCount: U64)
  {
    predicate OnHash() {
      InsertHash? || MergeHash?
    }

    /** Empty hashes are refused before any store is touched; hashes too long to be keys
        end the program. */
    predicate Accepted() {
      Lmdb.IsKey(fileHash) && (OnHash() ==> Lmdb.IsKey(blockHash))
    }

    function Op(id: U64): HashDataRuns.Op
      requires OnHash()
    {
      if InsertHash? then HashDataRuns.Insert(blockHash, kEntropy, blockLabel, id)
      else HashDataRuns.Merge(blockHash, kEntropy, blockLabel, id, subCount)
    }
  }

  /** The next store operation of a call. */
  datatype Pc = AtId | AtBody | AtFilter | AtBlank

  datatype Thread = Idle | Running(call: Call, pc: Pc, id: U64, isNew: bool, count: U64)

  /** The stores, the threads, and the hash calls so far in the order in which they
      reached the hash data store. */
  datatype State = State(ids: map<ByteString, nat>, data: map<nat, SourceData>,
                         names: map<nat, set<(ByteString, ByteString)>>, entries: map<ByteString, Entry>,
                         filter: map<ByteString, Byte>, threads: seq<Thread>, history: seq<HashDataRuns.Op>)

  function Init(n: nat): State {
    State(map[], map[], map[], map[], map[], seq(n, _ => Idle), [])
  }

  datatype Event = Begin(t: nat, call: Call) | Advance(t: nat)

  function Next(s: State, e: Event): State {
    if e.t >= |s.threads| then s else
      match e
      case Begin(t, call) =>
        if s.threads[t].Idle? && call.Accepted() then
          s.(threads := s.threads[t := Running(call, AtId, 0, false, 0)])
        else s
      case Advance(t) => if s.threads[t].Idle? then s else Step(s, t)
  }

  function Step(s: State, t: nat): State
    requires t < |s.threads| && s.threads[t].Running?
  {
    match s.threads[t].pc
    case AtId => GetId(s, t)
    case AtBody => Body(s, t)
    case AtFilter => Filter(s, t)
    case AtBlank => Blank(s, t)
  }

  /** lmdb_source_id_manager_t::insert: the id on record, or the store's size plus one. */
  function GetId(s: State, t: nat): State
    requires t < |s.threads| && s.threads[t].Running?
  {
    var th := s.threads[t];
    var f := th.call.fileHash;
    var ids := WithId(s.ids, f);
    s.(ids := ids, threads := s.threads[t := th.(pc := AtBody, id := IdOf(ids[f]), isNew := f !in s.ids)])
  }

  function WithId(ids: map<ByteString, nat>, f: ByteString): map<ByteString, nat> {
    if f in ids then ids else ids[f := |ids| + 1]
  }

  /** An id as the 64-bit value it is passed as. */
  function IdOf(id: nat): U64 {
    if id < TWO_TO_THE_64 then id else 0
  }

  /** The one store operation that makes the call what it is. */
  function Body(s: State, t: nat): State
    requires t < |s.threads| && s.threads[t].Running?
  {
    var th := s.threads[t];
    match th.call
    case InsertSourceName(f, repository, filename) =>
      var known := if th.id in s.names then s.names[th.id] else {};
      s.(names := s.names[th.id := known + {(repository, filename)}],
      threads := s.threads[t := th.(pc := AtBlank)])
    case InsertSourceData(f, info) =>
      s.(data := s.data[th.id := SourceData(f, info)], threads := s.threads[t := Idle])
    case _ => HashBody(s, t)
  }

  function HashBody(s: State, t: nat): State
    requires t < |s.threads| && s.threads[t].Running? && s.threads[t].call.OnHash()
  {
    var th := s.threads[t];
    var op := th.call.Op(th.id);
    var prev := Lookup(s.entries, op.hash);
    s.(entries := s.entries[op.hash := HashDataRuns.After(prev, op)], history := s.history + [op],
    threads := s.threads[t := th.(pc := AtFilter, count := Returned(prev, op))])
  }

  /** The count that insert and merge of the hash data store return. */
  function Returned(prev: Option<Entry>, op: HashDataRuns.Op): U64 {
    if op.Merge? && prev.Some? && op.source in prev.value.subs then prev.value.Count()
    else Clip4(HashDataRuns.After(prev, op).stored)
  }

  function Filter(s: State, t: nat): State
    requires t < |s.threads| && s.threads[t].Running?
  {
    var th := s.threads[t];
    if !th.call.OnHash() then s else
      s.(filter := s.filter[HashFilter.Prefix(th.call.blockHash) := HashFilter.Code(th.count)],
      threads := s.threads[t := th.(pc := AtBlank)])
  }

  /** A new source gets a blank source data record at the end of the call. */
  function Blank(s: State, t: nat): State
    requires t < |s.threads| && s.threads[t].Running?
  {
    var th := s.threads[t];
    s.(data := if th.isNew then s.data[th.id := SourceData(th.call.fileHash, BLANK)] else s.data,
    threads := s.threads[t := Idle])
  }

  /** The state after the first n events. */
  function Reached(threads: nat, events: seq<Event>, n: nat): State
    requires n <= |events|
  {
    if n == 0 then Init(threads) else Next(Reached(threads, events, n - 1), events[n - 1])
  }

  // ---------- the invariant ----------

  /** Source ids are exactly 1..n, one file hash each. */
  ghost predicate IdsDense(ids: map<ByteString, nat>) {
    && (forall f :: f in ids ==> 1 <= ids[f] <= |ids|)
    && (forall f, g :: f in ids && g in ids && ids[f] == ids[g] ==> f == g)
    && (forall k :: 1 <= k <= |ids| ==> HasId(ids, k))
  }

  ghost predicate HasId(ids: map<ByteString, nat>, k: nat) {
    exists f :: f in ids && ids[f] == k
  }

  ghost predicate Names(ids: map<ByteString, nat>, f: ByteString, id: nat) {
    f in ids && ids[f] == id
  }

  /** The thread will still write the source data record of this id. */
  ghost predicate Owes(th: Thread, id: nat) {
    && th.Running? && th.id == id && th.pc != AtId
    && (th.isNew || (th.call.InsertSourceData? && th.pc == AtBody))
  }

  /** The thread will still write the filter byte of this prefix. */
  ghost predicate WillFilter(th: Thread, prefix: ByteString) {
    th.Running? && th.pc == AtFilter && th.call.OnHash() && HashFilter.Prefix(th.call.blockHash) == prefix
  }

  ghost predicate ThreadOk(s: State, th: Thread) {
    th.Running? ==>
      && th.call.Accepted()
      && (th.pc != AtId ==> Names(s.ids, th.call.fileHash, th.id))
      && (th.pc == AtFilter ==> th.call.OnHash())
      && (th.call.InsertSourceData? ==> th.pc == AtId || th.pc == AtBody)
  }

  ghost predicate ThreadsOk(s: State) {
    forall t :: 0 <= t < |s.threads| ==> ThreadOk(s, s.threads[t])
  }

  /** Every id has its record, or a thread that will write it; records are right. */
  ghost predicate DataOk(s: State) {
    && (forall id :: id in s.data ==> Names(s.ids, s.data[id].fileHash, id))
    && (forall f :: f in s.ids ==> s.ids[f] in s.data || SomeOwes(s.threads, s.ids[f]))
  }

  ghost predicate SomeOwes(threads: seq<Thread>, id: nat) {
    exists t :: 0 <= t < |threads| && Owes(threads[t], id)
  }

  ghost predicate SomeFilters(threads: seq<Thread>, prefix: ByteString) {
    exists t :: 0 <= t < |threads| && WillFilter(threads[t], prefix)
  }

  /** The entries are what the hash calls so far amount to; they cite known ids. */
  ghost predicate EntriesOk(s: State) {
    && HashDataRuns.Accepted(s.history)
    && s.entries == HashDataRuns.Run(s.history, |s.history|)
    && (forall op :: op in s.history ==> HasId(s.ids, op.source))
  }

  /** Every stored hash's prefix is in the filter, or a thread will put it there. */
  ghost predicate FilterOk(s: State) {
    forall h :: h in s.entries ==>
                  HashFilter.Prefix(h) in s.filter || SomeFilters(s.threads, HashFilter.Prefix(h))
  }

  /** The parts of the invariant, by name, so that a proof can open only some. */
  datatype Part = Ids | Threads | Data | Entries | Filters

  ghost predicate Holds(part: Part, s: State) {
    match part
    case Ids => IdsDense(s.ids)
    case Threads => ThreadsOk(s)
    case Data => DataOk(s)
    case Entries => EntriesOk(s)
    case Filters => FilterOk(s)
  }

  ghost predicate Inv(s: State) {
    forall part :: Holds(part, s)
  }

  lemma InvFromParts(s: State)
    requires IdsDense(s.ids) && ThreadsOk(s) && DataOk(s) && EntriesOk(s) && FilterOk(s)
    ensures Inv(s)
  {
  }

  lemma PartsFromInv(s: State)
    requires Inv(s)
    ensures IdsDense(s.ids) && ThreadsOk(s) && DataOk(s) && EntriesOk(s) && FilterOk(s)
  {
    assert Holds(Ids, s) && Holds(Threads, s) && Holds(Data, s) && Holds(Entries, s) && Holds(Filters, s);
  }

  // ---------- every store operation keeps it ----------

  lemma GrownIds(ids: map<ByteString, nat>, f: ByteString)
    requires IdsDense(ids) && f !in ids
    ensures IdsDense(ids[f := |ids| + 1]) && |ids[f := |ids| + 1]| == |ids| + 1
    ensures forall k :: HasId(ids, k) ==> HasId(ids[f := |ids| + 1], k)
  {
    var ids' := ids[f := |ids| + 1];
    assert ids'.Keys == ids.Keys + {f};
    forall k | HasId(ids, k)
      ensures HasId(ids', k)
    {
      var g :| g in ids && ids[g] == k;
      assert g in ids' && ids'[g] == k;
    }
    assert f in ids' && ids'[f] == |ids| + 1;
    forall k | 1 <= k <= |ids'|
      ensures HasId(ids', k)
    {
      assert k <= |ids| ==> HasId(ids, k);
    }
  }

  /** Thread t alone moved, and no id changed. */
  ghost predicate Moved(s: State, s': State, t: nat) {
    && t < |s.threads| == |s'.threads|
    && (forall i :: 0 <= i < |s.threads| && i != t ==> s'.threads[i] == s.threads[i])
    && (forall f :: f in s.ids ==> f in s'.ids && s'.ids[f] == s.ids[f])
  }

  lemma ThreadsKept(s: State, s': State, t: nat)
    requires ThreadsOk(s) && Moved(s, s', t) && ThreadOk(s', s'.threads[t])
    ensures ThreadsOk(s')
  {
    forall i | 0 <= i < |s'.threads|
      ensures ThreadOk(s', s'.threads[i])
    {
      assert i != t ==> ThreadOk(s, s.threads[i]);
    }
  }

  /** Records stay covered when the moving thread passes none of its own debts by. */
  lemma DataKept(s: State, s': State, t: nat)
    requires DataOk(s) && Moved(s, s', t)
    requires forall id :: id in s'.data ==> Names(s'.ids, s'.data[id].fileHash, id)
    requires forall id :: id in s.data ==> id in s'.data
    requires forall f :: f in s'.ids && f !in s.ids ==> Owes(s'.threads[t], s'.ids[f])
    requires forall id :: Owes(s.threads[t], id) ==> Owes(s'.threads[t], id) || id in s'.data
    ensures DataOk(s')
  {
    forall f | f in s'.ids && s'.ids[f] !in s'.data
      ensures SomeOwes(s'.threads, s'.ids[f])
    {
      if f in s.ids {
        var i :| 0 <= i < |s.threads| && Owes(s.threads[i], s.ids[f]);
        assert Owes(s'.threads[i], s'.ids[f]);
      } else {
        assert Owes(s'.threads[t], s'.ids[f]);
      }
    }
  }

  lemma FilterKept(s: State, s': State, t: nat)
    requires FilterOk(s) && Moved(s, s', t)
    requires forall p :: p in s.filter ==> p in s'.filter
    requires forall h :: h in s'.entries && h !in s.entries ==> WillFilter(s'.threads[t], HashFilter.Prefix(h))
    requires forall p :: WillFilter(s.threads[t], p) ==> WillFilter(s'.threads[t], p) || p in s'.filter
    ensures FilterOk(s')
  {
    forall h | h in s'.entries && HashFilter.Prefix(h) !in s'.filter
      ensures SomeFilters(s'.threads, HashFilter.Prefix(h))
    {
      var p := HashFilter.Prefix(h);
      if h in s.entries {
        var i :| 0 <= i < |s.threads| && WillFilter(s.threads[i], p);
        assert WillFilter(s'.threads[i], p);
      } else {
        assert WillFilter(s'.threads[t], p);
      }
    }
  }

  lemma EntriesKept(s: State, s': State)
    requires EntriesOk(s) && s'.entries == s.entries && s'.history == s.history
    requires forall k :: HasId(s.ids, k) ==> HasId(s'.ids, k)
    ensures EntriesOk(s')
  {
  }

  lemma WithIdDense(ids: map<ByteString, nat>, f: ByteString)
    requires IdsDense(ids)
    ensures IdsDense(WithId(ids, f)) && |ids| <= |WithId(ids, f)| <= |ids| + 1
    ensures forall k :: HasId(ids, k) ==> HasId(WithId(ids, f), k)
  {
    if f !in ids {
      GrownIds(ids, f);
    }
  }

  lemma GetIdMoves(s: State, t: nat)
    requires t < |s.threads| && s.threads[t].Running?
    ensures Moved(s, GetId(s, t), t) && GetId(s, t).ids == WithId(s.ids, s.threads[t].call.fileHash)
  {
  }

  lemma GetIdThreads(s: State, t: nat)
    requires ThreadsOk(s) && IdsDense(s.ids) && |s.ids| + 1 < TWO_TO_THE_64
    requires t < |s.threads| && s.threads[t].Running?
    ensures ThreadsOk(GetId(s, t))
  {
    var s' := GetId(s, t);
    GetIdMoves(s, t);
    WithIdDense(s.ids, s.threads[t].call.fileHash);
    assert ThreadOk(s, s.threads[t]);
    assert ThreadOk(s', s'.threads[t]);
    ThreadsKept(s, s', t);
  }

  lemma GetIdData(s: State, t: nat)
    requires DataOk(s) && IdsDense(s.ids) && |s.ids| + 1 < TWO_TO_THE_64
    requires t < |s.threads| && s.threads[t].Running? && s.threads[t].pc == AtId
    ensures DataOk(GetId(s, t))
  {
    var s' := GetId(s, t);
    GetIdMoves(s, t);
    WithIdDense(s.ids, s.threads[t].call.fileHash);
    DataKept(s, s', t);
  }

  lemma GetIdFilter(s: State, t: nat)
    requires FilterOk(s)
    requires t < |s.threads| && s.threads[t].Running? && s.threads[t].pc == AtId
    ensures FilterOk(GetId(s, t))
  {
    GetIdMoves(s, t);
    FilterKept(s, GetId(s, t), t);
  }

  lemma GetIdKeeps(s: State, t: nat)
    requires Inv(s) && t < |s.threads| && s.threads[t].Running? && s.threads[t].pc == AtId
    requires |s.ids| + 1 < TWO_TO_THE_64
    ensures Inv(GetId(s, t)) && |GetId(s, t).ids| <= |s.ids| + 1
  {
    PartsFromInv(s);
    GetIdMoves(s, t);
    WithIdDense(s.ids, s.threads[t].call.fileHash);
    GetIdThreads(s, t);
    GetIdData(s, t);
    GetIdFilter(s, t);
    EntriesKept(s, GetId(s, t));
    InvFromParts(GetId(s, t));
  }

  lemma BodyThreads(s: State, t: nat)
    requires ThreadsOk(s) && t < |s.threads| && s.threads[t].Running? && s.threads[t].pc == AtBody
    ensures ThreadsOk(Body(s, t)) && Moved(s, Body(s, t), t) && Body(s, t).ids == s.ids
  {
    var s' := Body(s, t);
    assert ThreadOk(s, s.threads[t]);
    assert ThreadOk(s', s'.threads[t]);
    ThreadsKept(s, s', t);
  }

  lemma BodyData(s: State, t: nat)
    requires DataOk(s) && t < |s.threads| && s.threads[t].Running? && s.threads[t].pc == AtBody
    requires ThreadOk(s, s.threads[t]) && Moved(s, Body(s, t), t)
    ensures DataOk(Body(s, t))
  {
    DataKept(s, Body(s, t), t);
  }

  lemma BodyFilter(s: State, t: nat)
    requires FilterOk(s) && t < |s.threads| && s.threads[t].Running? && s.threads[t].pc == AtBody
    requires Moved(s, Body(s, t), t)
    ensures FilterOk(Body(s, t))
  {
    FilterKept(s, Body(s, t), t);
  }

  lemma HashBodyEntries(s: State, t: nat)
    requires EntriesOk(s) && IdsDense(s.ids) && t < |s.threads| && ThreadOk(s, s.threads[t])
    requires s.threads[t].Running? && s.threads[t].pc == AtBody && s.threads[t].call.OnHash()
    ensures EntriesOk(HashBody(s, t))
  {
    var op := s.threads[t].call.Op(s.threads[t].id);
    RunExtended(s.history, op);
    HistoryExtended(s.history, op, s.ids);
  }

  lemma BodyEntries(s: State, t: nat)
    requires EntriesOk(s) && IdsDense(s.ids) && t < |s.threads| && ThreadOk(s, s.threads[t])
    requires s.threads[t].Running? && s.threads[t].pc == AtBody
    ensures EntriesOk(Body(s, t))
  {
    if s.threads[t].call.OnHash() {
      HashBodyEntries(s, t);
    } else {
      EntriesKept(s, Body(s, t));
    }
  }

  lemma HistoryExtended(ops: seq<HashDataRuns.Op>, op: HashDataRuns.Op, ids: map<ByteString, nat>)
    requires HashDataRuns.Accepted(ops) && op.source > 0 && Lmdb.IsKey(op.hash)
    requires (forall o :: o in ops ==> HasId(ids, o.source)) && HasId(ids, op.source)
    ensures HashDataRuns.Accepted(ops + [op])
    ensures forall o :: o in ops + [op] ==> HasId(ids, o.source)
  {
  }

  lemma BodyKeeps(s: State, t: nat)
    requires Inv(s) && t < |s.threads| && s.threads[t].Running? && s.threads[t].pc == AtBody
    ensures Inv(Body(s, t)) && Body(s, t).ids == s.ids
  {
    PartsFromInv(s);
    BodyThreads(s, t);
    assert ThreadOk(s, s.threads[t]);
    BodyData(s, t);
    BodyFilter(s, t);
    BodyEntries(s, t);
    InvFromParts(Body(s, t));
  }

  lemma RunExtended(ops: seq<HashDataRuns.Op>, op: HashDataRuns.Op)
    ensures HashDataRuns.Run(ops + [op], |ops| + 1)
            == var m := HashDataRuns.Run(ops, |ops|); m[op.hash := HashDataRuns.After(Lookup(m, op.hash), op)]
  {
    RunPrefix(ops, [op], |ops|);
  }

  lemma {:induction false} RunPrefix(a: seq<HashDataRuns.Op>, b: seq<HashDataRuns.Op>, n: nat)
    requires n <= |a|
    ensures HashDataRuns.Run(a + b, n) == HashDataRuns.Run(a, n)
  {
    if n == 0 {
    } else {
      RunPrefix(a, b, n - 1);
    }
  }

  lemma FilterKeeps(s: State, t: nat)
    requires Inv(s) && t < |s.threads| && s.threads[t].Running? && s.threads[t].pc == AtFilter
    ensures Inv(Filter(s, t)) && Filter(s, t).ids == s.ids
  {
    PartsFromInv(s);
    var s' := Filter(s, t);
    assert ThreadOk(s, s.threads[t]);
    ThreadsKept(s, s', t);
    DataKept(s, s', t);
    FilterKept(s, s', t);
    InvFromParts(s');
  }

  lemma BlankThreads(s: State, t: nat)
    requires ThreadsOk(s) && t < |s.threads| && s.threads[t].Running? && s.threads[t].pc == AtBlank
    ensures ThreadsOk(Blank(s, t)) && Moved(s, Blank(s, t), t) && Blank(s, t).ids == s.ids
  {
    assert ThreadOk(s, s.threads[t]);
    ThreadsKept(s, Blank(s, t), t);
  }

  lemma BlankData(s: State, t: nat)
    requires DataOk(s) && t < |s.threads| && s.threads[t].Running? && s.threads[t].pc == AtBlank
    requires ThreadOk(s, s.threads[t]) && Moved(s, Blank(s, t), t)
    ensures DataOk(Blank(s, t))
  {
    DataKept(s, Blank(s, t), t);
  }

  lemma BlankKeeps(s: State, t: nat)
    requires Inv(s) && t < |s.threads| && s.threads[t].Running? && s.threads[t].pc == AtBlank
    ensures Inv(Blank(s, t)) && Blank(s, t).ids == s.ids
  {
    PartsFromInv(s);
    BlankThreads(s, t);
    assert ThreadOk(s, s.threads[t]);
    BlankData(s, t);
    FilterKept(s, Blank(s, t), t);
    InvFromParts(Blank(s, t));
  }

  lemma BeginKeeps(s: State, t: nat, call: Call)
    requires Inv(s) && t < |s.threads| && s.threads[t].Idle? && call.Accepted()
    ensures Inv(s.(threads := s.threads[t := Running(call, AtId, 0, false, 0)]))
  {
    PartsFromInv(s);
    var s' := s.(threads := s.threads[t := Running(call, AtId, 0, false, 0)]);
    ThreadsKept(s, s', t);
    DataKept(s, s', t);
    FilterKept(s, s', t);
    InvFromParts(s');
  }

  lemma StepKeeps(s: State, t: nat)
    requires Inv(s) && |s.ids| + 1 < TWO_TO_THE_64 && t < |s.threads| && s.threads[t].Running?
    ensures Inv(Step(s, t)) && |Step(s, t).ids| <= |s.ids| + 1
  {
    match s.threads[t].pc
    case AtId => GetIdKeeps(s, t);
    case AtBody => BodyKeeps(s, t);
    case AtFilter => FilterKeeps(s, t);
    case AtBlank => BlankKeeps(s, t);
  }

  /** The invariant, and no more ids than steps. */
  ghost predicate Good(s: State, n: nat) {
    Inv(s) && |s.ids| <= n
  }

  lemma NextKeeps(s: State, e: Event, n: nat)
    requires Good(s, n) && n + 1 < TWO_TO_THE_64
    ensures Good(Next(s, e), n + 1)
  {
    if e.t < |s.threads| {
      match e
      case Begin(t, call) =>
        if s.threads[t].Idle? && call.Accepted() {
          BeginKeeps(s, t, call);
        }
      case Advance(t) =>
        if s.threads[t].Running? {
          StepKeeps(s, t);
        }
    }
  }

  lemma InitOk(threads: nat)
    ensures Inv(Init(threads))
  {
    InvFromParts(Init(threads));
  }

  /** So every state that any interleaving of any calls reaches is consistent. */
  lemma {:induction false} ReachedOk(threads: nat, events: seq<Event>, n: nat)
    requires n <= |events| && n + 1 < TWO_TO_THE_64
    ensures Good(Reached(threads, events, n), n)
  {
    if n == 0 {
      InitOk(threads);
    } else {
      ReachedOk(threads, events, n - 1);
      NextKeeps(Reached(threads, events, n - 1), events[n - 1], n - 1);
    }
  }
}
