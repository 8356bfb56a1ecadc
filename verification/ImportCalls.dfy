/** Import calls in any interleaving, counted: each call that starts reaches its store just
    once, and at rest the stores are what the calls alone amount to. */
module ImportCalls {
  import opened ByteStrings
  import opened HashDataModel
  import opened ImportManager
  import opened Sources
  import HashDataRuns
  import Lmdb
  import ScanManager

  // ---------- calls that start, wait, and reach their store ----------

  /** The event starts a call in an idle thread, on hashes that can be keys. */
  ghost predicate Starts(s: State, e: Event) {
    && e.Begin? && e.t < |s.threads| && s.threads[e.t].Idle?
    && 0 < |e.call.fileHash| <= 511
    && (e.call.InsertHash? || e.call.MergeHash? ==> 0 < |e.call.blockHash| <= 511)
  }

  /** The event is the store operation that makes a call what it is. */
  ghost predicate Reaches(s: State, e: Event) {
    e.Advance? && e.t < |s.threads| && s.threads[e.t].Running? && s.threads[e.t].pc == AtBody
  }

  /** How many calls of a kind started. */
  ghost function Started(threads: nat, events: seq<Event>, n: nat, kind: Call -> bool): nat
    requires n <= |events|
  {
    if n == 0 then 0 else
      var s, e := Reached(threads, events, n - 1), events[n - 1];
      Started(threads, events, n - 1, kind) + (if Starts(s, e) && kind(e.call) then 1 else 0)
  }

  ghost function LogOf(s: State, e: Event): seq<Call> {
    if Reaches(s, e) then [s.threads[e.t].call] else []
  }

  /** The calls in the order in which they reached their stores. */
  ghost function Log(threads: nat, events: seq<Event>, n: nat): seq<Call>
    requires n <= |events|
  {
    if n == 0 then [] else Log(threads, events, n - 1) + LogOf(Reached(threads, events, n - 1), events[n - 1])
  }

  ghost function Logged(log: seq<Call>, kind: Call -> bool): nat {
    if log == [] then 0 else
      Logged(log[..|log| - 1], kind) + (if kind(log[|log| - 1]) then 1 else 0)
  }

  ghost predicate Waits(th: Thread, kind: Call -> bool) {
    th.Running? && (th.pc == AtId || th.pc == AtBody) && kind(th.call)
  }

  ghost function Waiting(threads: seq<Thread>, kind: Call -> bool): nat {
    if threads == [] then 0 else
      Waiting(threads[..|threads| - 1], kind) + (if Waits(threads[|threads| - 1], kind) then 1 else 0)
  }

  lemma LoggedOneMore(log: seq<Call>, call: Call, kind: Call -> bool)
    ensures Logged(log + [call], kind) == Logged(log, kind) + (if kind(call) then 1 else 0)
  {
    assert (log + [call])[..|log|] == log;
  }

  lemma {:induction false} WaitingChanged(threads: seq<Thread>, t: nat, th: Thread, kind: Call -> bool)
    requires t < |threads|
    ensures Waiting(threads[t := th], kind) + (if Waits(threads[t], kind) then 1 else 0)
              == Waiting(threads, kind) + (if Waits(th, kind) then 1 else 0)
  {
    var last := |threads| - 1;
    if t == last {
      assert threads[t := th][..last] == threads[..last];
    } else {
      assert threads[t := th][..last] == threads[..last][t := th];
      WaitingChanged(threads[..last], t, th, kind);
    }
  }

  lemma {:induction false} NoneWaits(threads: seq<Thread>, kind: Call -> bool)
    requires forall t :: 0 <= t < |threads| ==> threads[t].Idle?
    ensures Waiting(threads, kind) == 0
  {
    if threads == [] {
    } else {
      NoneWaits(threads[..|threads| - 1], kind);
    }
  }

  lemma BodyEndsWait(s: State, t: nat, kind: Call -> bool) returns (th: Thread)
    requires t < |s.threads| && s.threads[t].Running? && s.threads[t].pc == AtBody
    ensures Body(s, t).threads == s.threads[t := th] && !Waits(th, kind)
  {
    th := Body(s, t).threads[t];
  }

  lemma OtherStepsKeepWait(s: State, t: nat, kind: Call -> bool) returns (th: Thread)
    requires t < |s.threads| && s.threads[t].Running? && s.threads[t].pc != AtBody
    ensures Step(s, t).threads == s.threads[t := th] && (Waits(th, kind) <==> Waits(s.threads[t], kind))
  {
    th := Step(s, t).threads[t];
  }

  /** A step changes one thread: a call that starts waits, one that reaches its store no
      longer does, and any other step leaves the thread with its call. */
  lemma StepOfThread(s: State, e: Event, kind: Call -> bool) returns (th: Thread)
    requires e.t < |s.threads|
    ensures Next(s, e).threads == s.threads[e.t := th]
    ensures Starts(s, e) ==> !Waits(s.threads[e.t], kind) && (Waits(th, kind) <==> kind(e.call))
    ensures !Starts(s, e) ==> (Waits(th, kind) <==> Waits(s.threads[e.t], kind) && !Reaches(s, e))
  {
    th := s.threads[e.t];
    if Starts(s, e) {
      th := Running(e.call, AtId, 0, false, 0);
    } else if Reaches(s, e) {
      th := BodyEndsWait(s, e.t, kind);
    } else if e.Advance? && s.threads[e.t].Running? {
      th := OtherStepsKeepWait(s, e.t, kind);
    }
  }

  datatype Seal = Seal

  ghost predicate Balance(seal: Seal, threads: nat, events: seq<Event>, n: nat, kind: Call -> bool)
    requires n <= |events|
  {
    Logged(Log(threads, events, n), kind) + Waiting(Reached(threads, events, n).threads, kind)
    == Started(threads, events, n, kind)
  }

  ghost predicate Balanced(threads: nat, events: seq<Event>, n: nat, kind: Call -> bool)
    requires n <= |events|
  {
    forall seal :: Balance(seal, threads, events, n, kind)
  }

  lemma OneMoreEvent(threads: nat, events: seq<Event>, n: nat, s: State, e: Event)
    requires n < |events| && s == Reached(threads, events, n) && e == events[n]
    ensures Reached(threads, events, n + 1) == Next(s, e)
    ensures Log(threads, events, n + 1) == Log(threads, events, n) + LogOf(s, e)
  {
  }

  lemma NothingStarted(threads: nat, events: seq<Event>, kind: Call -> bool)
    ensures Balanced(threads, events, 0, kind)
  {
    NoneWaits(Init(threads).threads, kind);
  }

  lemma BalanceStep(threads: nat, events: seq<Event>, n: nat, kind: Call -> bool)
    requires n < |events| && Balanced(threads, events, n, kind)
    ensures Balanced(threads, events, n + 1, kind)
  {
    var s := Reached(threads, events, n);
    assert Balance(Seal, threads, events, n, kind);
    CallStep(s, events[n], Log(threads, events, n), kind);
    OneMoreEvent(threads, events, n, s, events[n]);
  }

  lemma {:induction false} BalancedAlways(threads: nat, events: seq<Event>, n: nat, kind: Call -> bool)
    requires n <= |events|
    ensures Balanced(threads, events, n, kind)
  {
    if n == 0 {
      NothingStarted(threads, events, kind);
    } else {
      BalancedAlways(threads, events, n - 1, kind);
      BalanceStep(threads, events, n - 1, kind);
    }
  }

  /** In every run the calls that started are those that reached their stores and those
      still waiting to. */
  lemma CallsConserved(threads: nat, events: seq<Event>, n: nat, kind: Call -> bool)
    requires n <= |events|
    ensures Logged(Log(threads, events, n), kind) + Waiting(Reached(threads, events, n).threads, kind)
              == Started(threads, events, n, kind)
  {
    BalancedAlways(threads, events, n, kind);
    assert Balance(Seal, threads, events, n, kind);
  }

  lemma CallStep(s: State, e: Event, log: seq<Call>, kind: Call -> bool)
    ensures Logged(log + LogOf(s, e), kind) + Waiting(Next(s, e).threads, kind)
              == Logged(log, kind) + Waiting(s.threads, kind) + (if Starts(s, e) && kind(e.call) then 1 else 0)
  {
    if e.t < |s.threads| {
      var th := StepOfThread(s, e, kind);
      WaitingChanged(s.threads, e.t, th, kind);
    }
    if Reaches(s, e) {
      LoggedOneMore(log, s.threads[e.t].call, kind);
    } else {
      assert log + [] == log;
    }
  }

  /** At rest every call that started has reached its store, once. */
  lemma EveryCallOnce(threads: nat, events: seq<Event>, kind: Call -> bool)
    requires ScanManager.AtRest(Reached(threads, events, |events|))
    ensures Logged(Log(threads, events, |events|), kind) == Started(threads, events, |events|, kind)
  {
    CallsConserved(threads, events, |events|, kind);
    NoneWaits(Reached(threads, events, |events|).threads, kind);
  }

  // ---------- the hash data store ----------

  ghost predicate Known(log: seq<Call>, ids: map<ByteString, nat>) {
    forall i :: 0 <= i < |log| ==> log[i].fileHash in ids
  }

  /** The hash calls of a log, under the ids of their sources. */
  ghost function HashOps(log: seq<Call>, ids: map<ByteString, nat>): seq<HashDataRuns.Op>
    requires Known(log, ids)
  {
    if log == [] then [] else
      var call := log[|log| - 1];
      HashOps(log[..|log| - 1], ids) + (if call.OnHash() then [call.Op(IdOf(ids[call.fileHash]))] else [])
  }

  lemma HashOpsOneMore(log: seq<Call>, ids: map<ByteString, nat>, call: Call)
    requires Known(log, ids) && call.fileHash in ids
    ensures Known(log + [call], ids)
    ensures HashOps(log + [call], ids)
              == HashOps(log, ids) + (if call.OnHash() then [call.Op(IdOf(ids[call.fileHash]))] else [])
  {
    assert (log + [call])[..|log|] == log;
  }

  lemma {:induction false} HashOpsStay(log: seq<Call>, ids: map<ByteString, nat>, ids': map<ByteString, nat>)
    requires Known(log, ids) && forall f :: f in ids ==> f in ids' && ids'[f] == ids[f]
    ensures Known(log, ids') && HashOps(log, ids') == HashOps(log, ids)
  {
    if log == [] {
    } else {
      HashOpsStay(log[..|log| - 1], ids, ids');
      assert log[|log| - 1].fileHash in ids;
    }
  }

  ghost predicate TellsAll(seal: Seal, s: State, log: seq<Call>) {
    Known(log, s.ids) && s.history == HashOps(log, s.ids)
  }

  /** The history is the log, under its seal. */
  ghost predicate Told(s: State, log: seq<Call>) {
    forall seal :: TellsAll(seal, s, log)
  }

  lemma BodyTells(s: State, t: nat, log: seq<Call>)
    requires Told(s, log) && t < |s.threads| && s.threads[t].Running? && s.threads[t].pc == AtBody
    requires ThreadOk(s, s.threads[t])
    ensures Told(Body(s, t), log + [s.threads[t].call])
  {
    assert TellsAll(Seal, s, log);
    HashOpsOneMore(log, s.ids, s.threads[t].call);
  }

  /** No other step touches the history; an id that is given out stays. */
  lemma OthersTellNothing(s: State, e: Event)
    requires !Reaches(s, e)
    ensures Next(s, e).history == s.history
    ensures forall f :: f in s.ids ==> f in Next(s, e).ids && Next(s, e).ids[f] == s.ids[f]
  {
  }

  lemma StepTells(s: State, e: Event, log: seq<Call>)
    requires Told(s, log) && ThreadsOk(s)
    ensures Told(Next(s, e), log + LogOf(s, e))
  {
    if Reaches(s, e) {
      assert ThreadOk(s, s.threads[e.t]);
      BodyTells(s, e.t, log);
    } else {
      assert TellsAll(Seal, s, log);
      OthersTellNothing(s, e);
      HashOpsStay(log, s.ids, Next(s, e).ids);
      assert log + [] == log;
    }
  }

  lemma HistoryStart(threads: nat, events: seq<Event>) returns (s: State, log: seq<Call>)
    ensures s == Reached(threads, events, 0) && log == Log(threads, events, 0) && Told(s, log)
  {
    s, log := Init(threads), [];
  }

  lemma HistoryStep(threads: nat, events: seq<Event>, n: nat, s: State, log: seq<Call>)
    returns (s': State, log': seq<Call>)
    requires n < |events| && n + 2 < TWO_TO_THE_64
    requires s == Reached(threads, events, n) && log == Log(threads, events, n) && Told(s, log)
    ensures s' == Reached(threads, events, n + 1) && log' == Log(threads, events, n + 1) && Told(s', log')
  {
    ReachedOk(threads, events, n);
    PartsFromInv(s);
    StepTells(s, events[n], log);
    OneMoreEvent(threads, events, n, s, events[n]);
    s', log' := Next(s, events[n]), log + LogOf(s, events[n]);
  }

  /** The hash data store has seen the hash calls of the log, in that order, and no others. */
  lemma {:induction false} HistoryIsLog(threads: nat, events: seq<Event>, n: nat)
    returns (s: State, log: seq<Call>)
    requires n <= |events| && n + 1 < TWO_TO_THE_64
    ensures s == Reached(threads, events, n) && log == Log(threads, events, n) && Told(s, log)
    decreases n
  {
    if n == 0 {
      s, log := HistoryStart(threads, events);
    } else {
      s, log := HistoryIsLog(threads, events, n - 1);
      s, log := HistoryStep(threads, events, n - 1, s, log);
    }
  }

  // ---------- the names of sources ----------

  ghost predicate Named(ids: map<ByteString, nat>, names: map<nat, set<(ByteString, ByteString)>>, f: ByteString,
                        name: (ByteString, ByteString))
  {
    f in ids && ids[f] in names && name in names[ids[f]]
  }

  ghost predicate NamesKnown(ids: map<ByteString, nat>, names: map<nat, set<(ByteString, ByteString)>>) {
    forall id :: id in names ==> HasId(ids, id)
  }

  /** No name is under an id that is only now given out. */
  lemma NewIdNamesNothing(ids: map<ByteString, nat>, names: map<nat, set<(ByteString, ByteString)>>, g: ByteString)
    requires IdsDense(ids) && NamesKnown(ids, names)
    ensures NamesKnown(WithId(ids, g), names)
    ensures g !in ids ==> WithId(ids, g)[g] !in names
  {
    WithIdDense(ids, g);
    if g !in ids {
      assert !HasId(ids, |ids| + 1);
    }
  }

  lemma NewIdKeepsNames(ids: map<ByteString, nat>, names: map<nat, set<(ByteString, ByteString)>>, g: ByteString,
                        f: ByteString, name: (ByteString, ByteString))
    requires IdsDense(ids) && NamesKnown(ids, names)
    ensures Named(WithId(ids, g), names, f, name) <==> Named(ids, names, f, name)
  {
    NewIdNamesNothing(ids, names, g);
  }

  lemma AddedName(ids: map<ByteString, nat>, names: map<nat, set<(ByteString, ByteString)>>, g: ByteString, id: nat,
                  known: set<(ByteString, ByteString)>, added: (ByteString, ByteString), f: ByteString,
                  name: (ByteString, ByteString))
    requires IdsDense(ids) && NamesKnown(ids, names) && ImportManager.Names(ids, g, id)
    requires known == if id in names then names[id] else {}
    ensures var names' := names[id := known + {added}];
            && NamesKnown(ids, names')
            && (Named(ids, names', f, name) <==> Named(ids, names, f, name) || (f == g && name == added))
  {
    assert HasId(ids, id);
    assert f in ids && ids[f] == id ==> f == g;
  }

  lemma BodyNames(s: State, t: nat, f: ByteString, name: (ByteString, ByteString))
    requires t < |s.threads| && s.threads[t].Running? && s.threads[t].pc == AtBody
    requires ThreadOk(s, s.threads[t]) && IdsDense(s.ids) && NamesKnown(s.ids, s.names)
    ensures var s' := Body(s, t);
            && NamesKnown(s'.ids, s'.names)
            && (Named(s'.ids, s'.names, f, name) <==>
                Named(s.ids, s.names, f, name) || s.threads[t].call == InsertSourceName(f, name.0, name.1))
  {
    var th := s.threads[t];
    if th.call.InsertSourceName? {
      AddedName(s.ids, s.names, th.call.fileHash, th.id, if th.id in s.names then s.names[th.id] else {},
                (th.call.repository, th.call.filename), f, name);
    }
  }

  /** The event asks for the id of a call's source. */
  ghost predicate AsksId(s: State, e: Event) {
    e.Advance? && e.t < |s.threads| && s.threads[e.t].Running? && s.threads[e.t].pc == AtId
  }

  lemma IdsOfStep(s: State, e: Event)
    ensures Next(s, e).ids == if AsksId(s, e) then WithId(s.ids, s.threads[e.t].call.fileHash) else s.ids
  {
  }

  lemma OthersNameNothing(s: State, e: Event)
    requires !Reaches(s, e)
    ensures Next(s, e).names == s.names
  {
  }

  lemma StepNames(s: State, e: Event, f: ByteString, name: (ByteString, ByteString))
    requires ThreadsOk(s) && IdsDense(s.ids) && NamesKnown(s.ids, s.names)
    ensures var s' := Next(s, e);
            && NamesKnown(s'.ids, s'.names)
            && (Named(s'.ids, s'.names, f, name) <==>
                Named(s.ids, s.names, f, name) || LogOf(s, e) == [InsertSourceName(f, name.0, name.1)])
  {
    if Reaches(s, e) {
      assert ThreadOk(s, s.threads[e.t]);
      BodyNames(s, e.t, f, name);
    } else {
      OthersNameNothing(s, e);
      IdsOfStep(s, e);
      if AsksId(s, e) {
        NewIdNamesNothing(s.ids, s.names, s.threads[e.t].call.fileHash);
        NewIdKeepsNames(s.ids, s.names, s.threads[e.t].call.fileHash, f, name);
      }
    }
  }

  lemma LogGrows(log: seq<Call>, s: State, e: Event, call: Call)
    ensures call in log + LogOf(s, e) <==> call in log || LogOf(s, e) == [call]
  {
  }

  ghost predicate NamesTell(seal: Seal, s: State, log: seq<Call>, f: ByteString, name: (ByteString, ByteString)) {
    && NamesKnown(s.ids, s.names)
    && (Named(s.ids, s.names, f, name) <==> InsertSourceName(f, name.0, name.1) in log)
  }

  ghost predicate NamesTold(s: State, log: seq<Call>, f: ByteString, name: (ByteString, ByteString)) {
    forall seal :: NamesTell(seal, s, log, f, name)
  }

  lemma NamesStart(threads: nat, events: seq<Event>, f: ByteString, name: (ByteString, ByteString))
    returns (s: State, log: seq<Call>)
    ensures s == Reached(threads, events, 0) && log == Log(threads, events, 0) && NamesTold(s, log, f, name)
  {
    s, log := Init(threads), [];
  }

  lemma NamesStep(threads: nat, events: seq<Event>, n: nat, s: State, log: seq<Call>, f: ByteString,
                  name: (ByteString, ByteString))
    returns (s': State, log': seq<Call>)
    requires n < |events| && n + 2 < TWO_TO_THE_64 && NamesTold(s, log, f, name)
    requires s == Reached(threads, events, n) && log == Log(threads, events, n)
    ensures s' == Reached(threads, events, n + 1) && log' == Log(threads, events, n + 1) && NamesTold(s', log', f, name)
  {
    ReachedOk(threads, events, n);
    PartsFromInv(s);
    assert NamesTell(Seal, s, log, f, name);
    StepNames(s, events[n], f, name);
    LogGrows(log, s, events[n], InsertSourceName(f, name.0, name.1));
    OneMoreEvent(threads, events, n, s, events[n]);
    s', log' := Next(s, events[n]), log + LogOf(s, events[n]);
  }

  /** A source has just the names that insert_source_name calls brought it. */
  lemma {:induction false} NamesAreLogged(threads: nat, events: seq<Event>, n: nat, f: ByteString,
                                          name: (ByteString, ByteString))
    returns (s: State, log: seq<Call>)
    requires n <= |events| && n + 1 < TWO_TO_THE_64
    ensures s == Reached(threads, events, n) && log == Log(threads, events, n) && NamesTold(s, log, f, name)
    decreases n
  {
    if n == 0 {
      s, log := NamesStart(threads, events, f, name);
    } else {
      s, log := NamesAreLogged(threads, events, n - 1, f, name);
      s, log := NamesStep(threads, events, n - 1, s, log, f, name);
    }
  }

  lemma {:induction false} LoggedIsMember(log: seq<Call>, call: Call)
    ensures Logged(log, c => c == call) > 0 <==> call in log
  {
    if log == [] {
    } else {
      LoggedIsMember(log[..|log| - 1], call);
      assert log == log[..|log| - 1] + [log[|log| - 1]];
    }
  }

  /** At rest a source has a name exactly when some call to give it that name started. */
  lemma NamesAtRest(threads: nat, events: seq<Event>, f: ByteString, repository: ByteString, filename: ByteString)
    requires |events| + 1 < TWO_TO_THE_64 && ScanManager.AtRest(Reached(threads, events, |events|))
    ensures var s := Reached(threads, events, |events|);
            Named(s.ids, s.names, f, (repository, filename)) <==>
              Started(threads, events, |events|, c => c == InsertSourceName(f, repository, filename)) > 0
  {
    var call := InsertSourceName(f, repository, filename);
    var s, log := NamesAreLogged(threads, events, |events|, f, (repository, filename));
    assert NamesTell(Seal, s, log, f, (repository, filename));
    LoggedIsMember(log, call);
    EveryCallOnce(threads, events, c => c == call);
  }

  // ---------- the data of sources ----------

  /** The event writes what an insert_source_data call brought for f. */
  ghost predicate InsertsData(s: State, e: Event, f: ByteString) {
    Reaches(s, e) && s.threads[e.t].call.InsertSourceData? && s.threads[e.t].call.fileHash == f
  }

  /** The event writes the blank record of a call that found f new. */
  ghost predicate WritesBlank(s: State, e: Event, f: ByteString) {
    && e.Advance? && e.t < |s.threads| && s.threads[e.t].Running? && s.threads[e.t].pc == AtBlank
    && s.threads[e.t].isNew && s.threads[e.t].call.fileHash == f
  }

  ghost function InfoIn(ids: map<ByteString, nat>, data: map<nat, SourceData>, f: ByteString): Option<Info> {
    if f in ids && ids[f] in data then Some(data[ids[f]].info) else None
  }

  /** The data on record for f. */
  ghost function InfoOf(s: State, f: ByteString): Option<Info> {
    InfoIn(s.ids, s.data, f)
  }

  /** No record is under an id that is only now given out. */
  lemma NewIdWritesNothing(ids: map<ByteString, nat>, data: map<nat, SourceData>, g: ByteString, f: ByteString)
    requires forall id :: id in data ==> ImportManager.Names(ids, data[id].fileHash, id)
    requires IdsDense(ids)
    ensures InfoIn(WithId(ids, g), data, f) == InfoIn(ids, data, f)
  {
    if g !in ids {
      assert |ids| + 1 !in data;
    }
  }

  lemma GetIdWritesNothing(s: State, t: nat, f: ByteString)
    requires t < |s.threads| && s.threads[t].Running? && IdsDense(s.ids) && DataOk(s)
    ensures InfoOf(GetId(s, t), f) == InfoOf(s, f)
  {
    NewIdWritesNothing(s.ids, s.data, s.threads[t].call.fileHash, f);
    assert GetId(s, t).ids == WithId(s.ids, s.threads[t].call.fileHash) && GetId(s, t).data == s.data;
  }

  lemma RecordWritten(s: State, t: nat, g: ByteString, info: Info, f: ByteString)
    requires t < |s.threads| && s.threads[t].Running? && IdsDense(s.ids)
    requires ImportManager.Names(s.ids, g, s.threads[t].id)
    ensures var s' := s.(data := s.data[s.threads[t].id := SourceData(g, info)]);
            InfoOf(s', f) == if f == g then Some(info) else InfoOf(s, f)
  {
  }

  lemma BodyInfo(s: State, t: nat, f: ByteString)
    requires t < |s.threads| && s.threads[t].Running? && s.threads[t].pc == AtBody
    requires ThreadOk(s, s.threads[t]) && IdsDense(s.ids)
    ensures var call := s.threads[t].call;
            InfoOf(Body(s, t), f)
            == if call.InsertSourceData? && call.fileHash == f then Some(call.info) else InfoOf(s, f)
  {
    var call := s.threads[t].call;
    if call.InsertSourceData? {
      RecordWritten(s, t, call.fileHash, call.info, f);
    }
  }

  lemma BlankInfo(s: State, t: nat, f: ByteString)
    requires t < |s.threads| && s.threads[t].Running? && s.threads[t].pc == AtBlank
    requires ThreadOk(s, s.threads[t]) && IdsDense(s.ids)
    ensures InfoOf(Blank(s, t), f)
            == if s.threads[t].isNew && s.threads[t].call.fileHash == f then Some(Info(0, [], 0, 0)) else InfoOf(s, f)
  {
    var call := s.threads[t].call;
    if s.threads[t].isNew {
      RecordWritten(s, t, call.fileHash, Info(0, [], 0, 0), f);
    }
  }

  lemma InfoStep(s: State, e: Event, f: ByteString)
    requires ThreadsOk(s) && IdsDense(s.ids) && DataOk(s)
    ensures InfoOf(Next(s, e), f)
            == if InsertsData(s, e, f) then Some(s.threads[e.t].call.info)
               else if WritesBlank(s, e, f) then Some(Info(0, [], 0, 0)) else InfoOf(s, f)
  {
    if e.Advance? && e.t < |s.threads| && s.threads[e.t].Running? {
      assert ThreadOk(s, s.threads[e.t]);
      match s.threads[e.t].pc
      case AtId => GetIdWritesNothing(s, e.t, f);
      case AtBody => BodyInfo(s, e.t, f);
      case AtFilter =>
      case AtBlank => BlankInfo(s, e.t, f);
    }
  }

  /** The thread found f new, and will write it a blank record. */
  ghost predicate WillBlank(th: Thread, f: ByteString) {
    th.Running? && th.isNew && th.pc != AtId && !th.call.InsertSourceData? && th.call.fileHash == f
  }

  ghost predicate SomeWillBlank(threads: seq<Thread>, f: ByteString) {
    exists t :: 0 <= t < |threads| && WillBlank(threads[t], f)
  }

  lemma BodyBlankers(s: State, t: nat, f: ByteString) returns (th: Thread)
    requires t < |s.threads| && s.threads[t].Running? && s.threads[t].pc == AtBody
    ensures Body(s, t).threads == s.threads[t := th] && (WillBlank(th, f) <==> WillBlank(s.threads[t], f))
  {
    th := Body(s, t).threads[t];
  }

  lemma OtherBlankers(s: State, t: nat, f: ByteString) returns (th: Thread)
    requires t < |s.threads| && s.threads[t].Running? && s.threads[t].pc != AtBody
    requires ThreadOk(s, s.threads[t]) && f in s.ids
    ensures Step(s, t).threads == s.threads[t := th]
    ensures WillBlank(th, f) <==> WillBlank(s.threads[t], f) && s.threads[t].pc != AtBlank
  {
    th := Step(s, t).threads[t];
  }

  /** Only a write of the blank record itself changes who is going to write it. */
  lemma BlankersOfStep(s: State, e: Event, f: ByteString) returns (th: Thread)
    requires e.t < |s.threads| && ThreadOk(s, s.threads[e.t]) && f in s.ids
    ensures Next(s, e).threads == s.threads[e.t := th]
    ensures WillBlank(th, f) <==> WillBlank(s.threads[e.t], f) && !WritesBlank(s, e, f)
    ensures WritesBlank(s, e, f) ==> WillBlank(s.threads[e.t], f)
  {
    th := s.threads[e.t];
    if Starts(s, e) {
      th := Running(e.call, AtId, 0, false, 0);
    } else if Reaches(s, e) {
      th := BodyBlankers(s, e.t, f);
    } else if e.Advance? && s.threads[e.t].Running? {
      th := OtherBlankers(s, e.t, f);
    }
  }

  lemma SomeBlankerOfStep(s: State, e: Event, f: ByteString)
    requires ThreadsOk(s) && f in s.ids
    ensures SomeWillBlank(Next(s, e).threads, f) ==> SomeWillBlank(s.threads, f)
    ensures SomeWillBlank(s.threads, f) ==> SomeWillBlank(Next(s, e).threads, f) || WritesBlank(s, e, f)
    ensures WritesBlank(s, e, f) ==> SomeWillBlank(s.threads, f)
  {
    if e.t < |s.threads| {
      assert ThreadOk(s, s.threads[e.t]);
      var th := BlankersOfStep(s, e, f);
      BlankersMove(s.threads, e.t, th, f);
    }
  }

  lemma BlankersMove(threads: seq<Thread>, t: nat, th: Thread, f: ByteString)
    requires t < |threads|
    ensures SomeWillBlank(threads[t := th], f) ==> SomeWillBlank(threads, f) || WillBlank(th, f)
    ensures SomeWillBlank(threads, f) ==> SomeWillBlank(threads[t := th], f) || WillBlank(threads[t], f)
    ensures WillBlank(th, f) ==> SomeWillBlank(threads[t := th], f)
    ensures WillBlank(threads[t], f) ==> SomeWillBlank(threads, f)
  {
    var threads' := threads[t := th];
    if i :| 0 <= i < |threads'| && WillBlank(threads'[i], f) {
      assert i != t ==> WillBlank(threads[i], f);
    }
    if i :| 0 <= i < |threads| && WillBlank(threads[i], f) {
      assert i != t ==> WillBlank(threads'[i], f);
    }
    assert WillBlank(th, f) ==> WillBlank(threads'[t], f);
  }

  // ---------- when inserted data stays ----------

  /** While no other data comes for f: the data inserted is on record and whoever was going
      to write the blank record still is, or the blank record has replaced it. */
  ghost predicate Stays(seal: Seal, s: State, f: ByteString, info: Info, owed: bool) {
    && f in s.ids
    && if owed then
         (SomeWillBlank(s.threads, f) && InfoOf(s, f) == Some(info)) || InfoOf(s, f) == Some(Info(0, [], 0, 0))
       else !SomeWillBlank(s.threads, f) && InfoOf(s, f) == Some(info)
  }

  ghost predicate StaysSealed(s: State, f: ByteString, info: Info, owed: bool) {
    forall seal :: Stays(seal, s, f, info, owed)
  }

  lemma IdsRemain(s: State, e: Event, f: ByteString)
    requires f in s.ids
    ensures f in Next(s, e).ids
  {
    IdsOfStep(s, e);
  }

  lemma StaysOn(s: State, e: Event, f: ByteString, info: Info, owed: bool)
    requires StaysSealed(s, f, info, owed) && !InsertsData(s, e, f)
    requires ThreadsOk(s) && IdsDense(s.ids) && DataOk(s)
    ensures StaysSealed(Next(s, e), f, info, owed)
  {
    assert Stays(Seal, s, f, info, owed);
    IdsRemain(s, e, f);
    InfoStep(s, e, f);
    SomeBlankerOfStep(s, e, f);
  }

  lemma StaysFrom(s: State, e: Event, f: ByteString)
    requires InsertsData(s, e, f) && ThreadsOk(s) && IdsDense(s.ids) && DataOk(s)
    ensures StaysSealed(Next(s, e), f, s.threads[e.t].call.info, SomeWillBlank(s.threads, f))
  {
    assert ThreadOk(s, s.threads[e.t]);
    IdsRemain(s, e, f);
    InfoStep(s, e, f);
    SomeBlankerOfStep(s, e, f);
  }

  /** The k-th event writes what an insert_source_data call brought for f. */
  ghost predicate Brings(threads: nat, events: seq<Event>, k: nat, f: ByteString) {
    k < |events| && InsertsData(Reached(threads, events, k), events[k], f)
  }

  ghost predicate LastBrings(threads: nat, events: seq<Event>, k: nat, f: ByteString) {
    Brings(threads, events, k, f) && forall j :: k < j ==> !Brings(threads, events, j, f)
  }

  lemma StaysFirst(threads: nat, events: seq<Event>, k: nat, f: ByteString, was: State) returns (s: State)
    requires k + 2 < TWO_TO_THE_64 && Brings(threads, events, k, f) && was == Reached(threads, events, k)
    ensures s == Reached(threads, events, k + 1)
    ensures StaysSealed(s, f, was.threads[events[k].t].call.info, SomeWillBlank(was.threads, f))
  {
    ReachedOk(threads, events, k);
    PartsFromInv(was);
    StaysFrom(was, events[k], f);
    OneMoreEvent(threads, events, k, was, events[k]);
    s := Next(was, events[k]);
  }

  lemma StaysStep(threads: nat, events: seq<Event>, n: nat, f: ByteString, info: Info, owed: bool, was: State)
    returns (s: State)
    requires n < |events| && n + 2 < TWO_TO_THE_64 && was == Reached(threads, events, n)
    requires StaysSealed(was, f, info, owed) && !Brings(threads, events, n, f)
    ensures s == Reached(threads, events, n + 1) && StaysSealed(s, f, info, owed)
  {
    ReachedOk(threads, events, n);
    PartsFromInv(was);
    StaysOn(was, events[n], f, info, owed);
    OneMoreEvent(threads, events, n, was, events[n]);
    s := Next(was, events[n]);
  }

  lemma {:induction false} StaysAlways(threads: nat, events: seq<Event>, k: nat, n: nat, f: ByteString, info: Info,
                                       owed: bool, first: State) returns (s: State)
    requires k + 1 <= n <= |events| && n + 1 < TWO_TO_THE_64
    requires first == Reached(threads, events, k + 1) && StaysSealed(first, f, info, owed)
    requires forall j :: k < j ==> !Brings(threads, events, j, f)
    ensures s == Reached(threads, events, n) && StaysSealed(s, f, info, owed)
    decreases n
  {
    if n == k + 1 {
      s := first;
    } else {
      s := StaysAlways(threads, events, k, n - 1, f, info, owed, first);
      s := StaysStep(threads, events, n - 1, f, info, owed, s);
    }
  }

  /** At rest the data on record for a source is what the latest insert_source_data call
      brought, unless a call that had found the source new was still to write its blank
      record when the data was written: then the data is lost, and the blank record stands. */
  lemma DataKeptExactly(threads: nat, events: seq<Event>, k: nat, f: ByteString)
    requires |events| + 1 < TWO_TO_THE_64 && ScanManager.AtRest(Reached(threads, events, |events|))
    requires LastBrings(threads, events, k, f)
    ensures var was, s := Reached(threads, events, k), Reached(threads, events, |events|);
            InfoOf(s, f) == Some(if SomeWillBlank(was.threads, f) then Info(0, [], 0, 0)
                                 else was.threads[events[k].t].call.info)
  {
    var was := Reached(threads, events, k);
    var info, owed := was.threads[events[k].t].call.info, SomeWillBlank(was.threads, f);
    var first := StaysFirst(threads, events, k, f, was);
    var s := StaysAlways(threads, events, k, |events|, f, info, owed, first);
    assert Stays(Seal, s, f, info, owed);
  }

  ghost predicate BlankIfAny(seal: Seal, s: State, f: ByteString) {
    InfoOf(s, f).Some? ==> InfoOf(s, f).value == Info(0, [], 0, 0)
  }

  ghost predicate BlankSealed(s: State, f: ByteString) {
    forall seal :: BlankIfAny(seal, s, f)
  }

  lemma BlankStart(threads: nat, events: seq<Event>, f: ByteString) returns (s: State)
    ensures s == Reached(threads, events, 0) && BlankSealed(s, f)
  {
    s := Init(threads);
  }

  lemma BlankStep(threads: nat, events: seq<Event>, n: nat, f: ByteString, was: State) returns (s: State)
    requires n < |events| && n + 2 < TWO_TO_THE_64 && was == Reached(threads, events, n)
    requires BlankSealed(was, f) && !Brings(threads, events, n, f)
    ensures s == Reached(threads, events, n + 1) && BlankSealed(s, f)
  {
    ReachedOk(threads, events, n);
    PartsFromInv(was);
    assert BlankIfAny(Seal, was, f);
    InfoStep(was, events[n], f);
    OneMoreEvent(threads, events, n, was, events[n]);
    s := Next(was, events[n]);
  }

  lemma {:induction false} BlankAlways(threads: nat, events: seq<Event>, n: nat, f: ByteString) returns (s: State)
    requires n <= |events| && n + 1 < TWO_TO_THE_64
    requires forall j :: 0 <= j ==> !Brings(threads, events, j, f)
    ensures s == Reached(threads, events, n) && BlankSealed(s, f)
    decreases n
  {
    if n == 0 {
      s := BlankStart(threads, events, f);
    } else {
      s := BlankAlways(threads, events, n - 1, f);
      s := BlankStep(threads, events, n - 1, f, s);
    }
  }

  /** At rest a known source that no insert_source_data call brought has the blank record. */
  lemma NeverBroughtIsBlank(threads: nat, events: seq<Event>, f: ByteString)
    requires |events| + 1 < TWO_TO_THE_64 && ScanManager.AtRest(Reached(threads, events, |events|))
    requires f in Reached(threads, events, |events|).ids
    requires forall j :: 0 <= j ==> !Brings(threads, events, j, f)
    ensures InfoOf(Reached(threads, events, |events|), f) == Some(Info(0, [], 0, 0))
  {
    var s := BlankAlways(threads, events, |events|, f);
    assert BlankIfAny(Seal, s, f);
    ReachedOk(threads, events, |events|);
    ScanManager.RecordsComplete(s);
  }

  /** Both calls have their id; the name call found the source new. */
  lemma BothHaveIds(f: ByteString, name: Call, data: Call) returns (s: State)
    requires Lmdb.IsKey(f) && name.InsertSourceName? && data.InsertSourceData? && name.fileHash == data.fileHash == f
    ensures s == Next(Next(Next(Next(Init(2), Begin(0, name)), Advance(0)), Begin(1, data)), Advance(1))
    ensures s.ids == map[f := 1] && s.data == map[]
    ensures s.threads == [Running(name, AtBody, 1, true, 0), Running(data, AtBody, 1, false, 0)]
  {
    assert Init(2).threads == [Idle, Idle];
    var s1 := Next(Init(2), Begin(0, name));
    assert s1.threads == [Running(name, AtId, 0, false, 0), Idle];
    var s2 := Next(s1, Advance(0));
    assert s2.ids == map[f := 1] && s2.data == map[] && s2.threads == [Running(name, AtBody, 1, true, 0), Idle];
    var s3 := Next(s2, Begin(1, data));
    assert s3.threads == [Running(name, AtBody, 1, true, 0), Running(data, AtId, 0, false, 0)];
    s := Next(s3, Advance(1));
  }

  lemma DataThenBlank(s: State, f: ByteString, name: Call, data: Call) returns (s': State, s'': State)
    requires name.InsertSourceName? && data.InsertSourceData? && name.fileHash == data.fileHash == f
    requires s.ids == map[f := 1] && s.data == map[]
    requires s.threads == [Running(name, AtBody, 1, true, 0), Running(data, AtBody, 1, false, 0)]
    ensures s' == Next(s, Advance(1)) && InfoOf(s', f) == Some(data.info)
    ensures s'' == Next(Next(s', Advance(0)), Advance(0)) && ScanManager.AtRest(s'')
    ensures InfoOf(s'', f) == Some(Info(0, [], 0, 0))
  {
    s' := Next(s, Advance(1));
    assert s'.data == map[1 := SourceData(f, data.info)] && s'.threads == [Running(name, AtBody, 1, true, 0), Idle];
    var after := Next(s', Advance(0));
    assert after.threads == [Running(name, AtBlank, 1, true, 0), Idle];
    s'' := Next(after, Advance(0));
    assert s''.threads == [Idle, Idle];
  }

  lemma TwoMoreEvents(events: seq<Event>, n: nat, s: State)
    requires n + 2 <= |events| && s == Reached(2, events, n)
    ensures Reached(2, events, n + 2) == Next(Next(s, events[n]), events[n + 1])
  {
    OneMoreEvent(2, events, n, s, events[n]);
    OneMoreEvent(2, events, n + 1, Next(s, events[n]), events[n + 1]);
  }

  /** Two threads: insert_source_data begins and returns while insert_source_name of the
      same new source is in progress, and its data is lost. */
  lemma DataIsLost(f: ByteString, repository: ByteString, filename: ByteString, info: Info)
    returns (events: seq<Event>)
    requires Lmdb.IsKey(f)
    ensures events == [Begin(0, InsertSourceName(f, repository, filename)), Advance(0),
                       Begin(1, InsertSourceData(f, info)), Advance(1), Advance(1), Advance(0), Advance(0)]
    ensures InfoOf(Reached(2, events, |events| - 2), f) == Some(info)
    ensures ScanManager.AtRest(Reached(2, events, |events|))
    ensures InfoOf(Reached(2, events, |events|), f) == Some(Info(0, [], 0, 0))
  {
    var name, data := InsertSourceName(f, repository, filename), InsertSourceData(f, info);
    events := [Begin(0, name), Advance(0), Begin(1, data), Advance(1), Advance(1), Advance(0), Advance(0)];
    var s := BothHaveIds(f, name, data);
    var s', s'' := DataThenBlank(s, f, name, data);
    TwoMoreEvents(events, 0, Init(2));
    TwoMoreEvents(events, 2, Next(Next(Init(2), events[0]), events[1]));
    OneMoreEvent(2, events, 4, s, events[4]);
    TwoMoreEvents(events, 5, s');
  }
}
