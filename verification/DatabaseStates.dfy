/** Whole databases against the stores: an import call that runs undisturbed does to the
    stores what the set operations' view of a database says it does. */
module DatabaseStates {
  import opened ByteStrings
  import opened HashDataRecords
  import opened HashDataModel
  import opened ImportManager
  import opened Sources
  import Databases
  import HashDataRuns
  import HashFilter
  import ScanManager

  /** The (repository, filename) pairs that names stand for. */
  function Pairs(names: set<Databases.Name>): set<(ByteString, ByteString)> {
    set name | name in names :: (name.repository, name.filename)
  }

  ghost predicate HashesStand(s: State, db: Databases.Db) {
    && db.hashes.Keys == s.entries.Keys
    && (forall h :: h in db.hashes ==> Databases.Corresponds(s.entries[h], db.hashes[h], s.ids))
  }

  ghost predicate DataStands(s: State, db: Databases.Db) {
    && db.data.Keys == s.ids.Keys
    && (forall f :: f in db.data ==> s.ids[f] in s.data && s.data[s.ids[f]] == SourceData(f, db.data[f]))
  }

  ghost predicate NamesStand(s: State, db: Databases.Db) {
    && (forall f :: NamesAgree(s.ids, s.names, db, f))
    && (forall id :: id in s.names ==> HasId(s.ids, id))
  }

  ghost predicate NamesAgree(ids: map<ByteString, nat>, names: map<nat, set<(ByteString, ByteString)>>,
                             db: Databases.Db, f: ByteString)
  {
    if f in ids then NamesOf(names, ids[f]) == Pairs(db.Names(f)) else db.Names(f) == {}
  }

  function NamesOf(names: map<nat, set<(ByteString, ByteString)>>, id: nat): set<(ByteString, ByteString)> {
    if id in names then names[id] else {}
  }

  /** The stores, with one thread and no call in progress, hold this database. */
  ghost predicate Stands(s: State, db: Databases.Db) {
    && s.threads == [Idle] && Inv(s)
    && HashesStand(s, db) && DataStands(s, db) && NamesStand(s, db)
  }

  lemma EmptyStands()
    ensures Stands(Init(1), Databases.EMPTY)
  {
    InitOk(1);
  }

  // ---------- one whole call ----------

  lemma WholeKeeps(s: State, call: Call)
    requires Inv(s) && |s.ids| + 6 < TWO_TO_THE_64
    ensures Inv(ScanManager.Whole(s, call))
  {
    var n := |s.ids|;
    var s1 := Next(s, Begin(0, call));
    NextKeeps(s, Begin(0, call), n);
    var s2 := Next(s1, Advance(0));
    NextKeeps(s1, Advance(0), n + 1);
    var s3 := Next(s2, Advance(0));
    NextKeeps(s2, Advance(0), n + 2);
    var s4 := Next(s3, Advance(0));
    NextKeeps(s3, Advance(0), n + 3);
    NextKeeps(s4, Advance(0), n + 4);
  }

  /** The id that a call works with. */
  function CallId(s: State, f: ByteString): nat {
    WithId(s.ids, f)[f]
  }

  lemma IdFits(s: State, f: ByteString)
    requires IdsDense(s.ids) && |s.ids| + 1 < TWO_TO_THE_64
    ensures 0 < CallId(s, f) < TWO_TO_THE_64 && IdOf(CallId(s, f)) == CallId(s, f)
  {
  }

  /** A call on a hash leaves a blank record for a new source and no name. */
  lemma HashCallSources(s: State, call: Call)
    requires s.threads == [Idle] && call.OnHash() && call.Accepted()
    ensures var s', f := ScanManager.Whole(s, call), call.fileHash;
            && s'.names == s.names
            && s'.data == if f in s.ids then s.data else s.data[IdOf(CallId(s, f)) := SourceData(f, Info(0, [], 0, 0))]
  {
    var s1 := Next(s, Begin(0, call));
    var s2 := Next(s1, Advance(0));
    assert s2 == GetId(s1, 0) && s2.data == s.data && s2.names == s.names;
    var s3 := Next(s2, Advance(0));
    assert s3 == HashBody(s2, 0) && s3.data == s.data && s3.names == s.names;
    HashCallEnd(s3, 0);
  }

  lemma HashCallEnd(s: State, t: nat)
    requires t < |s.threads| && s.threads[t].Running? && s.threads[t].pc == AtFilter && s.threads[t].call.OnHash()
    ensures var s', th := Next(Next(s, Advance(t)), Advance(t)), s.threads[t];
            && s'.names == s.names
            && s'.data == if th.isNew then s.data[th.id := SourceData(th.call.fileHash, Info(0, [], 0, 0))] else s.data
  {
    assert Next(s, Advance(t)) == Filter(s, t);
  }

  lemma NameCall(s: State, call: Call)
    requires s.threads == [Idle] && call.InsertSourceName? && call.Accepted()
    ensures var s', f, id := ScanManager.Whole(s, call), call.fileHash, IdOf(CallId(s, call.fileHash));
            && s'.threads == [Idle] && s'.ids == WithId(s.ids, f) && s'.entries == s.entries
            && s'.names == s.names[id := NamesOf(s.names, id) + {(call.repository, call.filename)}]
            && s'.data == if f in s.ids then s.data else s.data[id := SourceData(f, Info(0, [], 0, 0))]
  {
    var s1 := Next(s, Begin(0, call));
    var s2 := Next(s1, Advance(0));
    assert s2 == GetId(s1, 0);
    var s3 := Next(s2, Advance(0));
    assert s3 == Body(s2, 0);
    var s4 := Next(s3, Advance(0));
    assert s4 == Blank(s3, 0) && s4.threads == [Idle];
  }

  lemma DataCall(s: State, call: Call)
    requires s.threads == [Idle] && call.InsertSourceData? && call.Accepted()
    ensures var s', f := ScanManager.Whole(s, call), call.fileHash;
            && s'.threads == [Idle] && s'.ids == WithId(s.ids, f) && s'.entries == s.entries && s'.names == s.names
            && s'.data == s.data[IdOf(CallId(s, f)) := SourceData(f, call.info)]
  {
  }

  // ---------- what a new source changes ----------

  /** No name is under an id that was not given out. */
  lemma NewIdNameless(s: State, db: Databases.Db, f: ByteString)
    requires IdsDense(s.ids) && NamesStand(s, db) && f !in s.ids
    ensures CallId(s, f) !in s.names && NamesOf(s.names, CallId(s, f)) == {}
  {
    NewIdIsNew(s.ids);
  }

  lemma NewIdIsNew(ids: map<ByteString, nat>)
    requires IdsDense(ids)
    ensures !HasId(ids, |ids| + 1)
  {
    forall g | g in ids
      ensures ids[g] != |ids| + 1
    {
    }
  }

  /** Nor does any entry cite one. */
  lemma NewIdUncited(s: State, db: Databases.Db, f: ByteString)
    requires Stands(s, db) && f !in s.ids
    ensures forall h :: h in s.entries ==> CallId(s, f) !in s.entries[h].subs
  {
    PartsFromInv(s);
    forall h | h in s.entries
      ensures CallId(s, f) !in s.entries[h].subs
    {
      ScanManager.CitedSourcesKnown(s, h);
      NewIdIsNew(s.ids);
    }
  }

  /** An entry says the same when a source that it does not cite gets an id. */
  lemma StillCorresponds(s: State, db: Databases.Db, f: ByteString)
    requires Stands(s, db)
    ensures forall h :: h in db.hashes ==> Databases.Corresponds(s.entries[h], db.hashes[h], WithId(s.ids, f))
  {
    if f !in s.ids {
      NewIdUncited(s, db, f);
    }
  }

  lemma RecordsStand(s: State, db: Databases.Db, f: ByteString, s': State)
    requires Stands(s, db) && |s.ids| + 1 < TWO_TO_THE_64 && s'.ids == WithId(s.ids, f)
    requires s'.data == if f in s.ids then s.data else s.data[IdOf(CallId(s, f)) := SourceData(f, Info(0, [], 0, 0))]
    ensures DataStands(s', db.(data := Databases.WithSource(db.data, f)))
  {
    PartsFromInv(s);
    IdFits(s, f);
  }

  lemma NamesStay(s: State, db: Databases.Db, f: ByteString, s': State, db': Databases.Db)
    requires IdsDense(s.ids) && NamesStand(s, db)
    requires s'.ids == WithId(s.ids, f) && s'.names == s.names && db'.names == db.names
    ensures NamesStand(s', db')
  {
    WithIdDense(s.ids, f);
    forall g
      ensures NamesAgree(s'.ids, s'.names, db', g)
    {
      NamesStillAgree(s, db, f, s', db', g);
    }
  }

  lemma NamesStillAgree(s: State, db: Databases.Db, f: ByteString, s': State, db': Databases.Db, g: ByteString)
    requires IdsDense(s.ids) && NamesStand(s, db)
    requires s'.ids == WithId(s.ids, f) && s'.names == s.names && db'.names == db.names
    ensures NamesAgree(s'.ids, s'.names, db', g)
  {
    assert NamesAgree(s.ids, s.names, db, g) && db'.Names(g) == db.Names(g);
    if g == f && f !in s.ids {
      NewIdNameless(s, db, f);
    }
  }

  // ---------- each call, seen both ways ----------

  /** merge_hash on the stores is WithHash on the database. */
  lemma MergeStands(s: State, db: Databases.Db, h: ByteString, kEntropy: U64, blockLabel: ByteString, f: ByteString,
                    subCount: U64)
    requires Stands(s, db) && |s.ids| + 6 < TWO_TO_THE_64 && MergeHash(h, kEntropy, blockLabel, f, subCount).Accepted()
    ensures Stands(ScanManager.Whole(s, MergeHash(h, kEntropy, blockLabel, f, subCount)),
                   Databases.WithHash(db, h, kEntropy, blockLabel, f, subCount))
  {
    var call := MergeHash(h, kEntropy, blockLabel, f, subCount);
    var s', db' := ScanManager.Whole(s, call), Databases.WithHash(db, h, kEntropy, blockLabel, f, subCount);
    PartsFromInv(s);
    IdFits(s, f);
    WholeKeeps(s, call);
    ScanManager.WholeCall(s, call, call.Op(IdOf(CallId(s, f))));
    HashCallSources(s, call);
    RecordsStand(s, db, f, s');
    NamesStay(s, db, f, s', db');
    MergedHashesStand(s, db, call, s', db');
  }

  lemma MergedHashesStand(s: State, db: Databases.Db, call: Call, s': State, db': Databases.Db)
    requires Stands(s, db) && |s.ids| + 1 < TWO_TO_THE_64 && call.MergeHash? && s'.ids == WithId(s.ids, call.fileHash)
    requires var op := call.Op(IdOf(CallId(s, call.fileHash)));
             s'.entries == s.entries[op.hash := HashDataRuns.After(Lookup(s.entries, op.hash), op)]
    requires db'.hashes == db.hashes[call.blockHash :=
                                     Databases.Merged(Lookup(db.hashes, call.blockHash), call.kEntropy,
                                                      call.blockLabel, call.fileHash, call.subCount)]
    ensures HashesStand(s', db')
  {
    PartsFromInv(s);
    IdFits(s, call.fileHash);
    StillCorresponds(s, db, call.fileHash);
    WithIdDense(s.ids, call.fileHash);
    OneToOne(s'.ids);
    Databases.MergeCorresponds(Lookup(s.entries, call.blockHash), Lookup(db.hashes, call.blockHash), s'.ids,
                               call.kEntropy, call.blockLabel, call.fileHash, call.subCount);
    MapsCorrespond(s, db, call.blockHash, s', db');
  }

  lemma OneToOne(ids: map<ByteString, nat>)
    requires IdsDense(ids)
    ensures forall g, h :: g in ids && h in ids && ids[g] == ids[h] ==> g == h
  {
  }

  lemma MapsCorrespond(s: State, db: Databases.Db, h: ByteString, s': State, db': Databases.Db)
    requires db.hashes.Keys == s.entries.Keys && h in s'.entries && h in db'.hashes
    requires s'.entries == s.entries[h := s'.entries[h]] && db'.hashes == db.hashes[h := db'.hashes[h]]
    requires forall g :: g in db.hashes ==> Databases.Corresponds(s.entries[g], db.hashes[g], s'.ids)
    requires Databases.Corresponds(s'.entries[h], db'.hashes[h], s'.ids)
    ensures HashesStand(s', db')
  {
    forall g | g in db'.hashes
      ensures g in s'.entries && Databases.Corresponds(s'.entries[g], db'.hashes[g], s'.ids)
    {
      if g != h {
        assert db'.hashes[g] == db.hashes[g] && s'.entries[g] == s.entries[g];
      }
    }
    assert db'.hashes.Keys == db.hashes.Keys + {h} && s'.entries.Keys == s.entries.Keys + {h};
  }

  /** insert_source_data on the stores is WithData on the database. */
  lemma DataIsInserted(s: State, db: Databases.Db, f: ByteString, info: Info)
    requires Stands(s, db) && |s.ids| + 6 < TWO_TO_THE_64 && InsertSourceData(f, info).Accepted()
    ensures Stands(ScanManager.Whole(s, InsertSourceData(f, info)), Databases.WithData(db, f, info))
  {
    var call := InsertSourceData(f, info);
    var s', db' := ScanManager.Whole(s, call), Databases.WithData(db, f, info);
    PartsFromInv(s);
    IdFits(s, f);
    WholeKeeps(s, call);
    DataCall(s, call);
    StillCorresponds(s, db, f);
    NamesStay(s, db, f, s', db');
    InsertedDataStands(s, db, f, info, s', db');
  }

  lemma InsertedDataStands(s: State, db: Databases.Db, f: ByteString, info: Info, s': State, db': Databases.Db)
    requires Stands(s, db) && |s.ids| + 1 < TWO_TO_THE_64 && s'.ids == WithId(s.ids, f)
    requires s'.data == s.data[IdOf(CallId(s, f)) := SourceData(f, info)] && db'.data == db.data[f := info]
    ensures DataStands(s', db')
  {
    PartsFromInv(s);
    IdFits(s, f);
  }

  /** insert_source_name on the stores is WithNames on the database. */
  lemma NameIsInserted(s: State, db: Databases.Db, f: ByteString, name: Databases.Name)
    requires Stands(s, db) && |s.ids| + 6 < TWO_TO_THE_64
    requires InsertSourceName(f, name.repository, name.filename).Accepted()
    ensures Stands(ScanManager.Whole(s, InsertSourceName(f, name.repository, name.filename)),
                   Databases.WithNames(db, f, {name}))
  {
    var call := InsertSourceName(f, name.repository, name.filename);
    var s', db' := ScanManager.Whole(s, call), Databases.WithNames(db, f, {name});
    PartsFromInv(s);
    IdFits(s, f);
    WholeKeeps(s, call);
    NameCall(s, call);
    StillCorresponds(s, db, f);
    RecordsStand(s, db, f, s');
    InsertedNameStands(s, db, f, name, s', db');
  }

  lemma InsertedNameStands(s: State, db: Databases.Db, f: ByteString, name: Databases.Name, s': State,
                           db': Databases.Db)
    requires IdsDense(s.ids) && NamesStand(s, db) && s'.ids == WithId(s.ids, f)
    requires var id := CallId(s, f);
             s'.names == s.names[id := NamesOf(s.names, id) + {(name.repository, name.filename)}]
    requires db'.names == db.names[f := db.Names(f) + {name}]
    ensures NamesStand(s', db')
  {
    forall g
      ensures NamesAgree(s'.ids, s'.names, db', g)
    {
      InsertedNameAgrees(s, db, f, name, s', db', g);
    }
    WithIdDense(s.ids, f);
    assert f in s'.ids && s'.ids[f] == CallId(s, f);
  }

  lemma InsertedNameAgrees(s: State, db: Databases.Db, f: ByteString, name: Databases.Name, s': State,
                           db': Databases.Db, g: ByteString)
    requires IdsDense(s.ids) && NamesStand(s, db) && s'.ids == WithId(s.ids, f)
    requires var id := CallId(s, f);
             s'.names == s.names[id := NamesOf(s.names, id) + {(name.repository, name.filename)}]
    requires db'.names == db.names[f := db.Names(f) + {name}]
    ensures NamesAgree(s'.ids, s'.names, db', g)
  {
    if g == f {
      KnownNames(s, db, f);
      PairAdded(db.Names(f), name);
    } else {
      assert NamesAgree(s.ids, s.names, db, g);
      OtherId(s.ids, f, g);
    }
  }

  /** The names under the id that a call will use, given out or not. */
  lemma KnownNames(s: State, db: Databases.Db, f: ByteString)
    requires IdsDense(s.ids) && NamesStand(s, db)
    ensures NamesOf(s.names, CallId(s, f)) == Pairs(db.Names(f))
  {
    assert NamesAgree(s.ids, s.names, db, f);
    if f !in s.ids {
      NewIdNameless(s, db, f);
    }
  }

  lemma OtherId(ids: map<ByteString, nat>, f: ByteString, g: ByteString)
    requires IdsDense(ids) && g != f
    ensures g in WithId(ids, f) <==> g in ids
    ensures g in ids ==> WithId(ids, f)[g] == ids[g] && ids[g] != WithId(ids, f)[f]
  {
  }

  lemma PairAdded(names: set<Databases.Name>, name: Databases.Name)
    ensures Pairs(names + {name}) == Pairs(names) + {(name.repository, name.filename)}
  {
  }

  // ---------- find_hash, seen both ways ----------

  /** What find_hash reports of the stores is the database's hash data, keyed by file hash. */
  lemma ReportIsHashData(s: State, db: Databases.Db, h: ByteString, kEntropy: nat, blockLabel: ByteString, count: nat,
                         sources: map<ByteString, nat>)
    requires HashesStand(s, db) && h in s.entries
    requires ScanManager.Exact(s, s.entries[h], kEntropy, blockLabel, count, sources)
    ensures h in db.hashes && kEntropy == db.hashes[h].kEntropy && blockLabel == db.hashes[h].blockLabel
    ensures count == db.hashes[h].Count() && sources == db.Subs(h)
  {
    assert Databases.Corresponds(s.entries[h], db.hashes[h], s.ids);
    var subs := db.hashes[h].subs;
    forall f
      ensures f in sources <==> f in subs
      ensures f in sources ==> sources[f] == subs[f]
    {
    }
  }
}
