/** What a find returns after import calls in any interleaving, said of the calls alone, and
    proved of the byte stores. */
module ImportResults {
  import opened ByteStrings
  import opened HashDataModel
  import opened HashDataRecords
  import opened ImportCalls
  import opened ImportEntries
  import opened ImportManager
  import opened Sources
  import HashDataRuns
  import ImportRun
  import ScanManager

  // ---------- what is known at rest ----------

  ghost predicate Settled(s: State, log: seq<Call>) {
    && Known(log, s.ids) && OneToOne(s.ids) && s.history == HashOps(log, s.ids)
    && s.entries == HashDataRuns.Run(s.history, |s.history|)
    && HashDataRuns.Accepted(s.history) && (forall op :: op in s.history ==> HasId(s.ids, op.source))
  }

  lemma SettledAtRest(threads: nat, events: seq<Event>) returns (s: State, log: seq<Call>)
    requires |events| + 1 < TWO_TO_THE_64 && ScanManager.AtRest(Reached(threads, events, |events|))
    ensures s == Reached(threads, events, |events|) && log == Log(threads, events, |events|) && Settled(s, log)
  {
    s, log := HistoryIsLog(threads, events, |events|);
    assert TellsAll(Seal, s, log);
    ReachedOk(threads, events, |events|);
    PartsFromInv(s);
  }

  lemma EntryIsState(s: State, log: seq<Call>, h: ByteString)
    requires Settled(s, log)
    ensures Lookup(s.entries, h) == HashDataRuns.State(s.history, |s.history|, h)
  {
    HashDataRuns.StateOfRun(s.history, |s.history|, h);
  }

  lemma {:induction false} NoneCited(log: seq<Call>, ids: map<ByteString, nat>, h: ByteString, f: ByteString)
    requires Known(log, ids) && f !in ids
    ensures !CitedIn(log, h, f)
  {
  }

  lemma SourceAtRest(s: State, log: seq<Call>, h: ByteString, f: ByteString)
    requires Settled(s, log)
    ensures h in s.entries && f in s.ids && s.ids[f] in s.entries[h].subs <==> CitedIn(log, h, f)
    ensures h in s.entries && f in s.ids && s.ids[f] in s.entries[h].subs ==>
              s.entries[h].subs[s.ids[f]] == Clip2(Ideal(log, h, f))
  {
    if f in s.ids {
      EntryIsState(s, log, h);
      CountsOfLog(log, s.ids, h, f);
      HashDataRuns.SubCountsOfRun(s.history, |s.history|, h, s.ids[f]);
    } else {
      NoneCited(log, s.ids, h, f);
    }
  }

  lemma HeadAtRest(s: State, log: seq<Call>, h: ByteString)
    requires Settled(s, log)
    ensures HeadOk(log, Lookup(s.entries, h), h)
    ensures h in s.entries <==> exists i :: 0 <= i < |log| && On(log[i], h)
  {
    EntryIsState(s, log, h);
    HeadOfLog(log, s.ids, h);
    if h in s.entries {
      var i :| 0 <= i && FirstOn(log, i, h);
      assert On(log[i], h);
    }
  }

  lemma CitedWithinBound(s: State, log: seq<Call>, h: ByteString, id: nat)
    requires Settled(s, log) && HashDataRuns.Cited(s.history, |s.history|, h, id)
    requires forall f :: Ideal(log, h, f) <= 0xffff
    ensures HashDataRuns.Counted(s.history, |s.history|, h, id) <= 0xffff
  {
    var i :| 0 <= i < |s.history| && s.history[i].hash == h && s.history[i].source == id;
    assert s.history[i] in s.history;
    var f :| f in s.ids && s.ids[f] == id;
    CountsOfLog(log, s.ids, h, f);
  }

  lemma CountAtRest(s: State, log: seq<Call>, h: ByteString)
    requires Settled(s, log) && h in s.entries
    requires IdealTotal(log, h) < 0x8000_0000 && forall f :: Ideal(log, h, f) <= 0xffff
    ensures s.entries[h].Count() == IdealTotal(log, h)
  {
    EntryIsState(s, log, h);
    TotalOfLog(log, s.ids, h);
    forall id | HashDataRuns.Cited(s.history, |s.history|, h, id)
      ensures HashDataRuns.Counted(s.history, |s.history|, h, id) <= 0xffff
    {
      CitedWithinBound(s, log, h, id);
    }
    HashDataRuns.CountIsExact(s.history, |s.history|, h);
  }

  // ---------- hashes, on the byte stores ----------

  /** A report that says of h what the calls of the log amount to. */
  ghost predicate Tells(log: seq<Call>, h: ByteString, kEntropy: nat, blockLabel: ByteString, count: nat,
                        sources: map<ByteString, nat>)
  {
    && (exists i :: 0 <= i && FirstOn(log, i, h) && HeadFrom(kEntropy, blockLabel, log[i]))
    && (forall f :: f in sources <==> CitedIn(log, h, f))
    && (forall f :: f in sources ==>
                      sources[f] == if Ideal(log, h, f) <= 65535 then Ideal(log, h, f) else 65535)
    && (IdealTotal(log, h) < 0x8000_0000 && (forall f :: Ideal(log, h, f) <= 65535) ==> count == IdealTotal(log, h))
  }

  lemma ExactTells(s: State, log: seq<Call>, h: ByteString, kEntropy: nat, blockLabel: ByteString, count: nat,
                   sources: map<ByteString, nat>)
    requires Settled(s, log) && h in s.entries
    requires ScanManager.Exact(s, s.entries[h], kEntropy, blockLabel, count, sources)
    ensures Tells(log, h, kEntropy, blockLabel, count, sources)
  {
    HeadAtRest(s, log, h);
    forall f
      ensures f in sources <==> CitedIn(log, h, f)
      ensures f in sources ==> sources[f] == Clip2(Ideal(log, h, f))
    {
      SourceAtRest(s, log, h, f);
    }
    if IdealTotal(log, h) < 0x8000_0000 && forall f :: Ideal(log, h, f) <= 65535 {
      CountAtRest(s, log, h);
    }
  }

  /** Any interleaving of any import calls, then a find when none is in progress. A hash is
      found when some call on it reached the store and the latest count written for its first
      seven bytes is not zero. The first call on it gave its entropy and label; its sources are
      those that calls brought, with the counts that the calls in this order amount to, clipped
      at 65535; and when none was clipped its count is their total. */
  method FindAfterCalls(threads: nat, events: seq<Event>, h: ByteString)
    returns (found: bool, kEntropy: nat, blockLabel: ByteString, count: nat, sources: map<ByteString, nat>)
    requires |events| + 1 < TWO_TO_THE_64 && ScanManager.AtRest(Reached(threads, events, |events|))
    requires forall e :: e in events && e.Begin? ==> ImportRun.Writable(e.call)
    ensures var log := Log(threads, events, |events|);
            && (found <==> (exists i :: 0 <= i < |log| && On(log[i], h))
                           && ScanManager.LastWrite(threads, events, |events|, h) != Some(0))
            && (found ==> Tells(log, h, kEntropy, blockLabel, count, sources))
            && (!found ==> kEntropy == 0 && blockLabel == [] && count == 0 && sources == map[])
  {
    found, kEntropy, blockLabel, count, sources := ImportRun.FindAfterEvents(threads, events, h);
    ghost var s, log := SettledAtRest(threads, events);
    HeadAtRest(s, log, h);
    if found {
      ExactTells(s, log, h, kEntropy, blockLabel, count, sources);
    }
  }

  // ---------- inserts alone ----------

  ghost predicate InsertsOnly(events: seq<Event>) {
    forall e :: e in events && e.Begin? ==> !e.call.MergeHash?
  }

  ghost function IsMerge(): Call -> bool {
    (c: Call) => c.MergeHash?
  }

  lemma {:induction false} NoneStarted(threads: nat, events: seq<Event>, n: nat)
    requires n <= |events| && InsertsOnly(events)
    ensures Started(threads, events, n, IsMerge()) == 0
    decreases n
  {
    if n == 0 {
    } else {
      NoneStarted(threads, events, n - 1);
      assert events[n - 1] in events;
    }
  }

  lemma {:induction false} NoneLogged(log: seq<Call>, kind: Call -> bool)
    ensures Logged(log, kind) == 0 <==> forall i :: 0 <= i < |log| ==> !kind(log[i])
  {
    if log == [] {
    } else {
      var rest := log[..|log| - 1];
      NoneLogged(rest, kind);
      assert forall i :: 0 <= i < |rest| ==> rest[i] == log[i];
    }
  }

  lemma {:induction false} LogAtMost(threads: nat, events: seq<Event>, n: nat)
    requires n <= |events|
    ensures |Log(threads, events, n)| <= n
    decreases n
  {
    if n == 0 {
    } else {
      LogAtMost(threads, events, n - 1);
    }
  }

  lemma InsertsLogged(threads: nat, events: seq<Event>)
    requires |events| < 0x8000_0000 && InsertsOnly(events)
    requires ScanManager.AtRest(Reached(threads, events, |events|))
    ensures NoMerges(Log(threads, events, |events|)) && |Log(threads, events, |events|)| < 0x8000_0000
  {
    EveryCallOnce(threads, events, IsMerge());
    NoneStarted(threads, events, |events|);
    NoneLogged(Log(threads, events, |events|), IsMerge());
    LogAtMost(threads, events, |events|);
  }

  /** The filter hides nothing then. */
  lemma NothingHidden(threads: nat, events: seq<Event>, h: ByteString)
    requires |events| < 0x8000_0000 && InsertsOnly(events)
    requires ScanManager.AtRest(Reached(threads, events, |events|))
    requires exists i :: 0 <= i < |Log(threads, events, |events|)| && On(Log(threads, events, |events|)[i], h)
    ensures ScanManager.LastWrite(threads, events, |events|, h) != Some(0)
  {
    var s, log := SettledAtRest(threads, events);
    InsertsLogged(threads, events);
    HeadAtRest(s, log, h);
    forall g
      ensures HashDataRuns.Total(s.history, |s.history|, g) < 0x8000_0000
    {
      TotalOfLog(log, s.ids, g);
      IdealOfInserts(log, g, []);
    }
    ScanManager.FilterHidesNothing(threads, events, h);
    ScanManager.FoundByLastWrite(threads, events, h);
  }

  /** Any interleaving of insert_hash calls and calls on sources, then a find when none is in
      progress. A hash is found exactly when some call inserted it. It has exactly the sources
      that calls brought, each as often as there were calls, clipped at 65535; and its count
      is the number of calls, when no source was clipped. */
  method InsertsAfterEvents(threads: nat, events: seq<Event>, h: ByteString)
    returns (found: bool, kEntropy: nat, blockLabel: ByteString, count: nat, sources: map<ByteString, nat>)
    requires |events| < 0x8000_0000 && InsertsOnly(events)
    requires ScanManager.AtRest(Reached(threads, events, |events|))
    requires forall e :: e in events && e.Begin? ==> ImportRun.Writable(e.call)
    ensures found <==> Started(threads, events, |events|, InsertsInto(h)) > 0
    ensures forall f :: f in sources <==> Started(threads, events, |events|, InsertsOf(h, f)) > 0
    ensures forall f :: f in sources ==>
                          var times := Started(threads, events, |events|, InsertsOf(h, f));
                          sources[f] == if times <= 65535 then times else 65535
    ensures (forall f :: Started(threads, events, |events|, InsertsOf(h, f)) <= 65535) ==>
              count == Started(threads, events, |events|, InsertsInto(h))
  {
    found, kEntropy, blockLabel, count, sources := FindAfterCalls(threads, events, h);
    ghost var log := Log(threads, events, |events|);
    InsertsLogged(threads, events);
    IdealOfInserts(log, h, []);
    EveryCallOnce(threads, events, InsertsInto(h));
    if IdealTotal(log, h) > 0 {
      NothingHidden(threads, events, h);
    }
    forall f
      ensures Ideal(log, h, f) == Started(threads, events, |events|, InsertsOf(h, f))
      ensures CitedIn(log, h, f) <==> Ideal(log, h, f) > 0
      ensures CitedIn(log, h, f) ==> IdealTotal(log, h) > 0
    {
      IdealOfInserts(log, h, f);
      EveryCallOnce(threads, events, InsertsOf(h, f));
      CitedIsOn(log, h, f);
    }
  }

  lemma CitedIsOn(log: seq<Call>, h: ByteString, f: ByteString)
    ensures CitedIn(log, h, f) ==> exists i :: 0 <= i < |log| && On(log[i], h)
  {
    if CitedIn(log, h, f) {
      var i :| 0 <= i < |log| && OnPair(log[i], h, f);
      assert On(log[i], h);
    }
  }

  // ---------- sources ----------

  ghost function OnSource(f: ByteString): Call -> bool {
    (c: Call) => c.fileHash == f
  }

  lemma {:induction false} OneWaits(threads: seq<Thread>, t: nat, kind: Call -> bool)
    requires t < |threads| && Waits(threads[t], kind)
    ensures Waiting(threads, kind) > 0
  {
    if t == |threads| - 1 {
    } else {
      OneWaits(threads[..|threads| - 1], t, kind);
    }
  }

  ghost predicate Introduced(seal: Seal, threads: nat, events: seq<Event>, n: nat, f: ByteString)
    requires n <= |events|
  {
    f in Reached(threads, events, n).ids ==> Started(threads, events, n, OnSource(f)) > 0
  }

  ghost predicate IntroducedSealed(threads: nat, events: seq<Event>, n: nat, f: ByteString)
    requires n <= |events|
  {
    forall seal :: Introduced(seal, threads, events, n, f)
  }

  lemma IntroducedStart(threads: nat, events: seq<Event>, f: ByteString)
    ensures IntroducedSealed(threads, events, 0, f)
  {
  }

  /** A new id is given out only to a call that waits for it. */
  lemma IdForWaiting(s: State, e: Event, f: ByteString)
    requires f in Next(s, e).ids && f !in s.ids
    ensures Waiting(s.threads, OnSource(f)) > 0
  {
    IdsOfStep(s, e);
    OneWaits(s.threads, e.t, OnSource(f));
  }

  lemma StartedGrows(threads: nat, events: seq<Event>, n: nat, kind: Call -> bool)
    requires n < |events|
    ensures Started(threads, events, n, kind) <= Started(threads, events, n + 1, kind)
  {
  }

  lemma IntroducedStep(threads: nat, events: seq<Event>, n: nat, f: ByteString)
    requires n < |events| && IntroducedSealed(threads, events, n, f)
    ensures IntroducedSealed(threads, events, n + 1, f)
  {
    var s := Reached(threads, events, n);
    assert Introduced(Seal, threads, events, n, f);
    OneMoreEvent(threads, events, n, s, events[n]);
    if f in Next(s, events[n]).ids && f !in s.ids {
      IdForWaiting(s, events[n], f);
      CallsConserved(threads, events, n, OnSource(f));
    }
    StartedGrows(threads, events, n, OnSource(f));
  }

  lemma {:induction false} IntroducedAlways(threads: nat, events: seq<Event>, n: nat, f: ByteString)
    requires n <= |events|
    ensures IntroducedSealed(threads, events, n, f)
    decreases n
  {
    if n == 0 {
      IntroducedStart(threads, events, f);
    } else {
      IntroducedAlways(threads, events, n - 1, f);
      IntroducedStep(threads, events, n - 1, f);
    }
  }

  /** At rest the known sources are those that some call named. */
  lemma KnownSources(threads: nat, events: seq<Event>, f: ByteString)
    requires |events| + 1 < TWO_TO_THE_64 && ScanManager.AtRest(Reached(threads, events, |events|))
    ensures f in Reached(threads, events, |events|).ids <==> Started(threads, events, |events|, OnSource(f)) > 0
  {
    IntroducedAlways(threads, events, |events|, f);
    assert Introduced(Seal, threads, events, |events|, f);
    var s, log := HistoryIsLog(threads, events, |events|);
    assert TellsAll(Seal, s, log);
    EveryCallOnce(threads, events, OnSource(f));
    NoneLogged(log, OnSource(f));
  }

  /** Any interleaving of any calls, then a look at a source when none is in progress. It is
      found exactly when some call named it. Its data is what the latest insert_source_data
      call brought, or the blank record when no call did, or when another call, which had
      found the source new, was still to write its blank record. */
  method DataAfterEvents(threads: nat, events: seq<Event>, f: ByteString) returns (found: bool, info: Info)
    requires |events| + 1 < TWO_TO_THE_64 && ScanManager.AtRest(Reached(threads, events, |events|)) && f != []
    requires forall e :: e in events && e.Begin? ==> ImportRun.Writable(e.call)
    ensures found <==> Started(threads, events, |events|, OnSource(f)) > 0
    ensures found && (forall k :: 0 <= k ==> !Brings(threads, events, k, f)) ==> info == Info(0, [], 0, 0)
    ensures forall k: nat :: LastBrings(threads, events, k, f) ==>
                          var was := Reached(threads, events, k);
                          found && info == if SomeWillBlank(was.threads, f) then Info(0, [], 0, 0)
                          else was.threads[events[k].t].call.info
  {
    var stores := ImportRun.Replay(threads, events);
    var id;
    found, id := stores.ids.Find(f, 0);
    info := Info(0, [], 0, 0);
    KnownSources(threads, events, f);
    ReachedOk(threads, events, |events|);
    if found {
      ScanManager.RecordsComplete(stores.state);
      var known, fileHash;
      known, fileHash, info := stores.data.Find(id);
      assert InfoOf(stores.state, f) == Some(info);
      if forall k :: 0 <= k ==> !Brings(threads, events, k, f) {
        NeverBroughtIsBlank(threads, events, f);
      }
    }
    forall k: nat | LastBrings(threads, events, k, f)
      ensures InfoOf(Reached(threads, events, |events|), f)
                == Some(if SomeWillBlank(Reached(threads, events, k).threads, f) then Info(0, [], 0, 0)
                        else Reached(threads, events, k).threads[events[k].t].call.info)
    {
      DataKeptExactly(threads, events, k, f);
    }
  }
}
