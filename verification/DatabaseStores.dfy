/** Whole databases and whole commands on the byte stores: what the scan calls read of
    stores at rest, and that a command's copies, written call by call, leave the database
    that the command describes. */
module DatabaseStores {
  import opened ByteStrings
  import opened Copying
  import opened Databases
  import opened DatabaseStates
  import opened HashDataModel
  import opened ImportRun
  import opened Sources
  import HashDataRecords
  import ImportManager
  import Lmdb
  import ScanManager
  import SetOperations
  import SetResults
  import SourceStores

  type State = ImportManager.State

  // ---------- every store at rest holds a database ----------

  function Unpaired(pairs: set<(ByteString, ByteString)>): set<Name> {
    set pair | pair in pairs :: Name(pair.0, pair.1)
  }

  lemma UnpairedPairs(names: set<Name>, pairs: set<(ByteString, ByteString)>)
    ensures Unpaired(Pairs(names)) == names && Pairs(Unpaired(pairs)) == pairs
  {
    forall name | name in names
      ensures name in Unpaired(Pairs(names))
    {
      assert (name.repository, name.filename) in Pairs(names);
    }
    forall pair | pair in pairs
      ensures pair in Pairs(Unpaired(pairs))
    {
      assert Name(pair.0, pair.1) in Unpaired(pairs);
    }
  }

  /** An entry with the sources named by their file hashes. */
  ghost function ByFile(e: Entry, ids: map<ByteString, nat>): HashData {
    HashData(e.kEntropy, e.blockLabel, e.stored, map f | f in ids && ids[f] in e.subs :: e.subs[ids[f]])
  }

  ghost function DbOf(s: State): Db
    requires forall f :: f in s.ids ==> s.ids[f] in s.data
  {
    Db(map h | h in s.entries :: ByFile(s.entries[h], s.ids), map f | f in s.ids :: s.data[s.ids[f]].info,
      map f | f in s.ids :: Unpaired(NamesOf(s.names, s.ids[f])))
  }

  /** Names are only kept under ids that were given out. */
  ghost predicate NamesKnown(s: State) {
    forall id :: id in s.names ==> ImportManager.HasId(s.ids, id)
  }

  lemma NextNamesKnown(s: State, e: ImportManager.Event)
    requires ImportManager.Inv(s) && NamesKnown(s)
    ensures NamesKnown(ImportManager.Next(s, e))
  {
    if e.Advance? && e.t < |s.threads| && s.threads[e.t].Running? {
      StepNamesKnown(s, e.t);
    }
  }

  lemma StepNamesKnown(s: State, t: nat)
    requires ImportManager.Inv(s) && NamesKnown(s) && t < |s.threads| && s.threads[t].Running?
    ensures NamesKnown(ImportManager.Step(s, t))
  {
    ImportManager.PartsFromInv(s);
    var th := s.threads[t];
    assert ImportManager.ThreadOk(s, th);
    match th.pc
    case AtId => GetIdNamesKnown(s, t);
    case AtBody => BodyNamesKnown(s, t);
    case AtFilter => RestNamesKnown(s, t);
    case AtBlank => RestNamesKnown(s, t);
  }

  lemma GetIdNamesKnown(s: State, t: nat)
    requires NamesKnown(s) && t < |s.threads| && s.threads[t].Running?
    ensures NamesKnown(ImportManager.GetId(s, t))
  {
    forall id | id in s.names
      ensures ImportManager.HasId(ImportManager.GetId(s, t).ids, id)
    {
      StillGivenOut(s.ids, s.threads[t].call.fileHash, id);
    }
  }

  lemma StillGivenOut(ids: map<ByteString, nat>, f: ByteString, id: nat)
    requires ImportManager.HasId(ids, id)
    ensures ImportManager.HasId(ImportManager.WithId(ids, f), id)
  {
    var g :| g in ids && ids[g] == id;
    assert g in ImportManager.WithId(ids, f) && ImportManager.WithId(ids, f)[g] == id;
  }

  lemma RestNamesKnown(s: State, t: nat)
    requires NamesKnown(s) && t < |s.threads| && s.threads[t].Running?
    ensures NamesKnown(ImportManager.Filter(s, t)) && NamesKnown(ImportManager.Blank(s, t))
  {
  }

  lemma BodyNamesKnown(s: State, t: nat)
    requires NamesKnown(s) && t < |s.threads| && s.threads[t].Running?
    requires ImportManager.Names(s.ids, s.threads[t].call.fileHash, s.threads[t].id)
    ensures NamesKnown(ImportManager.Body(s, t))
  {
    assert ImportManager.HasId(s.ids, s.threads[t].id);
  }

  lemma {:induction false} ReachedNamesKnown(threads: nat, events: seq<ImportManager.Event>, n: nat)
    requires n <= |events| && |events| + 1 < TWO_TO_THE_64
    ensures NamesKnown(ImportManager.Reached(threads, events, n))
  {
    if n == 0 {
    } else {
      ReachedNamesKnown(threads, events, n - 1);
      ImportManager.ReachedOk(threads, events, n - 1);
      NextNamesKnown(ImportManager.Reached(threads, events, n - 1), events[n - 1]);
    }
  }

  /** With one thread and no call in progress, the stores hold a database. */
  lemma StoresHoldDb(s: State)
    requires ImportManager.Inv(s) && s.threads == [ImportManager.Idle] && NamesKnown(s)
    ensures forall f :: f in s.ids ==> s.ids[f] in s.data
    ensures Stands(s, DbOf(s))
  {
    ScanManager.RecordsComplete(s);
    EntriesHeld(s);
    NamesHeld(s);
  }

  lemma EntriesHeld(s: State)
    requires forall f :: f in s.ids ==> s.ids[f] in s.data && s.data[s.ids[f]].fileHash == f
    ensures HashesStand(s, DbOf(s)) && DataStands(s, DbOf(s))
  {
    var db := DbOf(s);
    forall h | h in s.entries
      ensures Databases.Corresponds(s.entries[h], db.hashes[h], s.ids)
    {
      assert db.hashes[h] == ByFile(s.entries[h], s.ids);
    }
  }

  lemma NamesHeld(s: State)
    requires NamesKnown(s) && forall f :: f in s.ids ==> s.ids[f] in s.data
    ensures NamesStand(s, DbOf(s))
  {
    var db := DbOf(s);
    forall f
      ensures NamesAgree(s.ids, s.names, db, f)
    {
      if f in s.ids {
        UnpairedPairs({}, NamesOf(s.names, s.ids[f]));
      }
    }
  }

  // ---------- what a scan manager sees ----------

  ghost predicate HoldNow(seal: Seal, stores: Stores, db: Db)
    reads stores, stores.hashData, stores.filter, stores.ids, stores.data
  {
    stores.Matches() && Stands(stores.state, db)
  }

  /** The stores hold this database. */
  ghost predicate Hold(stores: Stores, db: Db)
    reads stores, stores.hashData, stores.filter, stores.ids, stores.data
  {
    forall seal :: HoldNow(seal, stores, db)
  }

  /** The view is of this database: its hashes in order, and those whose filter byte says
      that there are none. */
  ghost predicate Views(s: State, a: ScanDb) {
    && Stands(s, a.db) && a.Sound(Listed) && a.Sound(Ordered)
    && (forall h :: h in a.hidden <==> h in a.db.hashes && !ScanManager.Passes(s, h))
  }

  ghost predicate ShowNow(seal: Seal, stores: Stores, a: ScanDb)
    reads stores, stores.hashData, stores.filter, stores.ids, stores.data
  {
    stores.Matches() && Views(stores.state, a)
  }

  /** The stores show this view. */
  ghost predicate Shows(stores: Stores, a: ScanDb)
    reads stores, stores.hashData, stores.filter, stores.ids, stores.data
  {
    forall seal :: ShowNow(seal, stores, a)
  }

  /** What the byte records can hold, and so do hold. */
  ghost predicate Storable(s: State) {
    && (forall h :: h in s.entries ==> Lmdb.IsKey(h) && s.entries[h].Ok())
    && (forall f :: f in s.ids ==> Lmdb.IsKey(f))
    && (forall id :: id in s.data ==> SourceStores.Ok(s.data[id]))
  }

  lemma MatchingIsStorable(stores: Stores)
    requires stores.Matches()
    ensures Storable(stores.state)
  {
    var s := stores.state;
    forall f | f in s.ids
      ensures Lmdb.IsKey(f)
    {
      assert SourceStores.IdRecord(stores.ids.env, f, s.ids[f]);
    }
    forall id | id in s.data
      ensures SourceStores.Ok(s.data[id])
    {
      assert SourceStores.Agrees(SourceStores.FromModel, stores.data.env, s.data);
      assert SourceStores.RecordOf(stores.data.env, id, s.data[id]);
    }
  }

  /** A view of stores at rest is sound: that is all that the commands ask of a database
      that they read. */
  lemma ViewIsValid(s: State, a: ScanDb)
    requires Storable(s) && Views(s, a)
    ensures a.Valid()
  {
    forall h | h in a.db.hashes
      ensures a.HashOk(h)
    {
      EntryViewed(s, a, h);
    }
    forall part
      ensures a.Sound(part)
    {
      match part
      case Listed =>
      case Ordered =>
      case Sourced =>
    }
  }

  lemma EntryViewed(s: State, a: ScanDb, h: ByteString)
    requires Storable(s) && Views(s, a) && h in a.db.hashes
    ensures a.HashOk(h) && Lmdb.IsKey(h) && a.db.hashes[h].kEntropy < TWO_TO_THE_64
  {
    var e, d := s.entries[h], a.db.hashes[h];
    assert Databases.Corresponds(e, d, s.ids);
    ScanManager.CitedSourcesKnown(s, h);
    SomeCited(s.ids, e, d);
    SubsViewed(s.ids, e, d);
    SourcesViewed(s, a, d);
  }

  lemma SourcesViewed(s: State, a: ScanDb, d: HashData)
    requires Storable(s) && Views(s, a) && forall f :: f in d.subs ==> f in s.ids
    ensures forall f :: f in d.subs ==> f != [] && f in a.db.data
  {
  }

  lemma SubsViewed(ids: map<ByteString, nat>, e: Entry, d: HashData)
    requires Databases.Corresponds(e, d, ids) && e.Ok()
    ensures |d.blockLabel| <= HashDataRecords.MAX_LABEL_SIZE && d.kEntropy < TWO_TO_THE_64
    ensures forall f :: f in d.subs ==> f in ids && d.subs[f] < 0x1_0000
  {
  }

  lemma SomeCited(ids: map<ByteString, nat>, e: Entry, d: HashData)
    requires Databases.Corresponds(e, d, ids) && |e.subs| > 0
    requires forall id :: id in e.subs ==> ImportManager.HasId(ids, id)
    ensures |d.subs| > 0
  {
    assert e.subs.Keys != {};
    var id :| id in e.subs;
    assert ImportManager.HasId(ids, id);
    var f :| f in ids && ids[f] == id;
    assert f in d.subs;
  }

  lemma ShownIsHeld(stores: Stores, a: ScanDb)
    requires Shows(stores, a)
    ensures Hold(stores, a.db)
  {
    assert ShowNow(Seal, stores, a);
  }

  lemma ShownIsValid(stores: Stores, a: ScanDb)
    requires Shows(stores, a)
    ensures a.Valid()
  {
    assert ShowNow(Seal, stores, a);
    MatchingIsStorable(stores);
    ViewIsValid(stores.state, a);
  }

  // ---------- the calls of a scan manager ----------

  method FirstHash(stores: Stores, ghost a: ScanDb) returns (h: ByteString)
    requires Shows(stores, a)
    ensures h == if a.keys == [] then [] else a.keys[0]
  {
    assert ShowNow(Seal, stores, a);
    MatchingIsStorable(stores);
    h := stores.hashData.FirstHash();
    FirstIsLeast(stores.state, a, h);
  }

  lemma FirstIsLeast(s: State, a: ScanDb, h: ByteString)
    requires Views(s, a) && Storable(s)
    requires h == [] <==> s.entries == map[]
    requires h != [] ==> h in s.entries && forall g :: g in s.entries && g != h ==> LexLess(h, g)
    ensures h == if a.keys == [] then [] else a.keys[0]
  {
    if a.keys == [] {
      assert forall g :: g !in s.entries;
      assert s.entries == map[];
    } else {
      assert a.keys[0] in s.entries && h in a.keys;
      var i :| 0 <= i < |a.keys| && a.keys[i] == h;
      ViewIsValid(s, a);
      a.KeysInOrder(i, 0);
      a.KeysInOrder(0, i);
    }
  }

  method NextHash(stores: Stores, h: ByteString, ghost a: ScanDb, ghost i: nat) returns (next: ByteString)
    requires Shows(stores, a) && i < |a.keys| && a.keys[i] == h
    ensures next == if i + 1 < |a.keys| then a.keys[i + 1] else []
  {
    assert ShowNow(Seal, stores, a);
    MatchingIsStorable(stores);
    next := stores.hashData.NextHash(h);
    NextIsSuccessor(stores.state, a, i, next);
  }

  lemma NextIsSuccessor(s: State, a: ScanDb, i: nat, next: ByteString)
    requires Views(s, a) && Storable(s) && i < |a.keys|
    requires next != [] ==> next in s.entries && LexLess(a.keys[i], next)
    requires forall g :: g in s.entries && LexLess(a.keys[i], g) ==> next != [] && (g == next || LexLess(next, g))
    ensures next == if i + 1 < |a.keys| then a.keys[i + 1] else []
  {
    ViewIsValid(s, a);
    forall h
      ensures h in s.entries <==> h in a.keys
    {
    }
    SuccessorInList(a, i, next);
  }

  lemma SuccessorInList(a: ScanDb, i: nat, next: ByteString)
    requires a.Valid() && i < |a.keys|
    requires next != [] ==> next in a.keys && LexLess(a.keys[i], next)
    requires forall g :: g in a.keys && LexLess(a.keys[i], g) ==> next != [] && (g == next || LexLess(next, g))
    ensures next == if i + 1 < |a.keys| then a.keys[i + 1] else []
  {
    if i + 1 < |a.keys| {
      a.KeysInOrder(i, i + 1);
      assert a.keys[i + 1] in a.keys;
    }
    if next != [] {
      var k :| 0 <= k < |a.keys| && a.keys[k] == next;
      a.KeysInOrder(i, k);
      if i + 1 < |a.keys| {
        a.KeysInOrder(k, i + 1);
      }
    }
  }

  method FindHash(stores: Stores, h: ByteString, ghost a: ScanDb)
    returns (found: bool, kEntropy: nat, blockLabel: ByteString, count: nat, subs: map<ByteString, nat>)
    requires Shows(stores, a)
    ensures (found <==> a.Found(h)) && subs == a.FoundSubs(h)
    ensures found ==>
              var d := a.db.hashes[h]; kEntropy == d.kEntropy && blockLabel == d.blockLabel && count == d.Count()
  {
    assert ShowNow(Seal, stores, a);
    MatchingIsStorable(stores);
    var failed;
    found, failed, kEntropy, blockLabel, count, subs := stores.FindHash(h);
    ReportIsView(stores.state, a, h, found, failed, kEntropy, blockLabel, count, subs);
  }

  lemma ReportIsView(s: State, a: ScanDb, h: ByteString, found: bool, failed: bool, kEntropy: nat,
                     blockLabel: ByteString, count: nat, subs: map<ByteString, nat>)
    requires Views(s, a) && Storable(s)
    requires ScanManager.Reports(s, h, found, failed, kEntropy, blockLabel, count, subs)
    ensures !failed && (found <==> a.Found(h)) && subs == a.FoundSubs(h)
    ensures found ==>
              var d := a.db.hashes[h]; kEntropy == d.kEntropy && blockLabel == d.blockLabel && count == d.Count()
  {
    if h in s.entries {
      ScanManager.CitedSourcesKnown(s, h);
      if found {
        ScanManager.AllReported(s, h, subs);
        ReportIsHashData(s, a.db, h, kEntropy, blockLabel, count, subs);
      }
    }
  }

  method FindHashCount(stores: Stores, h: ByteString, ghost a: ScanDb) returns (count: nat)
    requires Shows(stores, a)
    ensures count == a.Count(h)
  {
    assert ShowNow(Seal, stores, a);
    count := stores.hashData.FindCount(h);
    if h in a.db.hashes {
      assert Databases.Corresponds(stores.state.entries[h], a.db.hashes[h], stores.state.ids);
    }
  }

  method FindSourceData(stores: Stores, f: ByteString, ghost db: Db) returns (found: bool, info: Info)
    requires Hold(stores, db)
    ensures found <==> f in db.data
    ensures info == if found then db.data[f] else Info(0, [], 0, 0)
  {
    assert HoldNow(Seal, stores, db);
    MatchingIsStorable(stores);
    var id;
    found, id := stores.ids.Find(f, 0);
    info := BLANK;
    if found {
      var known, fileHash;
      known, fileHash, info := stores.data.Find(id);
    }
  }

  method FindSourceNames(stores: Stores, f: ByteString, ghost db: Db) returns (found: bool, names: set<Name>)
    requires Hold(stores, db)
    ensures names == db.Names(f) && (found <==> names != {})
  {
    assert HoldNow(Seal, stores, db);
    MatchingIsStorable(stores);
    assert NamesAgree(stores.state.ids, stores.state.names, db, f);
    var known, id := stores.ids.Find(f, 0);
    names := if known && id in stores.names then Unpaired(stores.names[id]) else {};
    UnpairedPairs(db.Names(f), {});
    found := names != {};
  }

  /** The sources that adders leave alone. */
  method Preexisting(stores: Stores, ghost db: Db) returns (sources: set<ByteString>)
    requires Hold(stores, db)
    ensures sources == db.data.Keys
  {
    assert HoldNow(Seal, stores, db);
    sources := stores.ids.AllSources();
  }

  // ---------- reading a whole database ----------

  /** The stored count from the count that is read back. */
  function StoredOf(count: U64): nat
    requires count < 0x8000_0000 || count >= TWO_TO_THE_64 - TWO_TO_THE_32
  {
    if count < 0x8000_0000 then count else count - (TWO_TO_THE_64 - TWO_TO_THE_32)
  }

  method ReadEntry(stores: Stores, h: ByteString, ghost a: ScanDb) returns (d: HashData)
    requires Shows(stores, a) && h in a.db.hashes
    ensures d == a.db.hashes[h]
  {
    assert ShowNow(Seal, stores, a);
    MatchingIsStorable(stores);
    ghost var s := stores.state;
    var found, kEntropy, blockLabel, count, subCounts := stores.hashData.Find(h);
    ScanManager.CitedSourcesKnown(s, h);
    var failed, subs := stores.LookUpSources(subCounts, s.entries[h].subs);
    ScanManager.AllReported(s, h, subs);
    ReportIsHashData(s, a.db, h, kEntropy, blockLabel, count, subs);
    d := HashData(kEntropy, blockLabel, StoredOf(count), subs);
    assert Databases.Corresponds(s.entries[h], a.db.hashes[h], s.ids) && s.entries[h].Ok();
  }

  /** The first n hashes have been read. */
  ghost predicate ReadTo(a: ScanDb, n: nat, hashes: map<ByteString, HashData>, keys: seq<ByteString>,
                         hidden: set<ByteString>)
  {
    && n <= |a.keys| && keys == a.keys[..n] && hashes.Keys == (set k | k in keys)
    && (forall k :: k in hashes ==> k in a.db.hashes && hashes[k] == a.db.hashes[k])
    && (forall k :: k in hidden <==> k in keys && k in a.hidden)
  }

  lemma ReadOneMore(a: ScanDb, n: nat, hashes: map<ByteString, HashData>, keys: seq<ByteString>,
                    hidden: set<ByteString>)
    requires ReadTo(a, n, hashes, keys, hidden) && n < |a.keys| && a.keys[n] in a.db.hashes
    requires forall i :: 0 <= i < n ==> a.keys[i] != a.keys[n]
    ensures var h := a.keys[n];
            ReadTo(a, n + 1, hashes[h := a.db.hashes[h]], keys + [h], if h in a.hidden then hidden + {h} else hidden)
  {
    var h := a.keys[n];
    assert a.keys[..n + 1] == keys + [h];
    assert (set k | k in keys + [h]) == (set k | k in keys) + {h};
  }

  lemma NoKeyTwice(a: ScanDb, n: nat)
    requires a.Valid() && n < |a.keys|
    ensures forall i :: 0 <= i < n ==> a.keys[i] != a.keys[n]
  {
    forall i | 0 <= i < n
      ensures a.keys[i] != a.keys[n]
    {
      a.KeysInOrder(i, n);
      LexIrreflexive(a.keys[n]);
    }
  }

  lemma AllRead(stores: Stores, a: ScanDb, hashes: map<ByteString, HashData>, keys: seq<ByteString>,
                hidden: set<ByteString>)
    requires Shows(stores, a) && ReadTo(a, |a.keys|, hashes, keys, hidden)
    ensures hashes == a.db.hashes && keys == a.keys && hidden == a.hidden
  {
    assert ShowNow(Seal, stores, a);
    ReadToEnd(a, hashes, keys, hidden);
  }

  lemma ReadToEnd(a: ScanDb, hashes: map<ByteString, HashData>, keys: seq<ByteString>, hidden: set<ByteString>)
    requires a.Sound(Listed) && ReadTo(a, |a.keys|, hashes, keys, hidden)
    requires forall h :: h in a.hidden ==> h in a.db.hashes
    ensures hashes == a.db.hashes && keys == a.keys && hidden == a.hidden
  {
    assert a.keys[..|a.keys|] == a.keys;
  }

  /** One hash's entry, and whether the filter hides it. */
  method ReadHash(stores: Stores, h: ByteString, ghost a: ScanDb) returns (d: HashData, hides: bool)
    requires Shows(stores, a) && h in a.db.hashes && h != []
    ensures d == a.db.hashes[h] && (hides <==> h in a.hidden)
  {
    assert ShowNow(Seal, stores, a);
    d := ReadEntry(stores, h, a);
    var approximate := stores.filter.Find(h);
    hides := approximate == 0;
  }

  /** All hashes in order, from first_hash on through next_hash, with their entries and with
      what the filter says of them. */
  method ReadHashes(stores: Stores, ghost a: ScanDb)
    returns (hashes: map<ByteString, HashData>, keys: seq<ByteString>, hidden: set<ByteString>)
    requires Shows(stores, a)
    ensures hashes == a.db.hashes && keys == a.keys && hidden == a.hidden
  {
    ShownIsValid(stores, a);
    hashes, keys, hidden := map[], [], {};
    ghost var n := 0;
    var h := FirstHash(stores, a);
    while h != []
      invariant ReadTo(a, n, hashes, keys, hidden) && h == SetResults.KeyAt(a, n)
      decreases |a.keys| - n
    {
      SetResults.KeyNotEmpty(a, n);
      NoKeyTwice(a, n);
      ReadOneMore(a, n, hashes, keys, hidden);
      var d, hides := ReadHash(stores, h, a);
      hashes, keys, hidden := hashes[h := d], keys + [h], if hides then hidden + {h} else hidden;
      h := NextHash(stores, h, a, n);
      n := n + 1;
    }
    SetResults.KeysNotEmpty(a, n);
    AllRead(stores, a, hashes, keys, hidden);
  }

  method ReadSources(stores: Stores, ghost db: Db)
    returns (data: map<ByteString, Info>, names: map<ByteString, set<Name>>)
    requires Hold(stores, db)
    ensures data == db.data && names.Keys == db.data.Keys && forall f :: f in names ==> names[f] == db.Names(f)
  {
    data, names := map[], map[];
    var left := Preexisting(stores, db);
    while left != {}
      invariant left <= db.data.Keys && data.Keys == names.Keys == db.data.Keys - left
      invariant forall f :: f in data ==> data[f] == db.data[f] && names[f] == db.Names(f)
      decreases left
    {
      var f :| f in left;
      var found, info := FindSourceData(stores, f, db);
      var named, known := FindSourceNames(stores, f, db);
      data, names, left := data[f := info], names[f := known], left - {f};
    }
  }

  /** The keys of a finite set in order. */
  lemma {:induction false} Listing(keys: set<ByteString>) returns (list: seq<ByteString>)
    ensures forall k :: k in list <==> k in keys
    ensures forall i, j :: 0 <= i < j < |list| ==> LexLess(list[i], list[j])
  {
    if keys == {} {
      list := [];
    } else {
      var least := Least(keys);
      var rest := Listing(keys - {least});
      list := [least] + rest;
    }
  }

  lemma {:induction false} Least(keys: set<ByteString>) returns (least: ByteString)
    requires keys != {}
    ensures least in keys && forall k :: k in keys && k != least ==> LexLess(least, k)
  {
    var k :| k in keys;
    if keys == {k} {
      least := k;
    } else {
      assert keys - {k} != {};
      least := Least(keys - {k});
      LexTotal(k, least);
      if LexLess(k, least) {
        forall j | j in keys && j != k && j != least
          ensures LexLess(k, j)
        {
          LexTransitive(k, least, j);
        }
        least := k;
      }
    }
  }

  lemma ViewExists(s: State) returns (a: ScanDb)
    requires ImportManager.Inv(s) && s.threads == [ImportManager.Idle] && NamesKnown(s)
    ensures Views(s, a)
  {
    StoresHoldDb(s);
    var db := DbOf(s);
    var keys := Listing(db.hashes.Keys);
    a := ScanDb(db, keys, set h | h in db.hashes && !ScanManager.Passes(s, h));
    assert a.Sound(Listed) && a.Sound(Ordered);
  }

  ghost predicate RestsNow(seal: Seal, stores: Stores)
    reads stores, stores.hashData, stores.filter, stores.ids, stores.data
  {
    && stores.Matches() && ImportManager.Inv(stores.state)
    && stores.state.threads == [ImportManager.Idle] && NamesKnown(stores.state)
  }

  /** The stores are at rest, with one thread. */
  ghost predicate Rests(stores: Stores)
    reads stores, stores.hashData, stores.filter, stores.ids, stores.data
  {
    forall seal :: RestsNow(seal, stores)
  }

  /** Any run of calls of one thread leaves such stores whenever no call is in progress. */
  lemma {:induction false} RestAfterEvents(stores: Stores, events: seq<ImportManager.Event>)
    requires |events| + 1 < TWO_TO_THE_64 && stores.Matches()
    requires stores.state == ImportManager.Reached(1, events, |events|) && ScanManager.AtRest(stores.state)
    ensures Rests(stores)
  {
    ImportManager.ReachedOk(1, events, |events|);
    ReachedNamesKnown(1, events, |events|);
    OneThread(events, |events|);
    assert stores.state.threads == [ImportManager.Idle];
  }

  lemma {:induction false} OneThread(events: seq<ImportManager.Event>, n: nat)
    requires n <= |events|
    ensures |ImportManager.Reached(1, events, n).threads| == 1
  {
    if n == 0 {
    } else {
      OneThread(events, n - 1);
      ThreadsStay(ImportManager.Reached(1, events, n - 1), events[n - 1]);
    }
  }

  lemma ThreadsStay(s: State, e: ImportManager.Event)
    ensures |ImportManager.Next(s, e).threads| == |s.threads|
  {
    if e.Advance? && e.t < |s.threads| && s.threads[e.t].Running? {
      ScanManager.StepCalls(s, e.t);
    }
  }

  lemma SomeViewShown(stores: Stores) returns (a: ScanDb)
    requires Rests(stores)
    ensures Shows(stores, a)
  {
    assert RestsNow(Seal, stores);
    a := ViewExists(stores.state);
  }

  lemma ReadIsView(s: State, view: ScanDb, a: ScanDb)
    requires Views(s, view) && a.keys == view.keys && a.hidden == view.hidden
    requires a.db.hashes == view.db.hashes && a.db.data == view.db.data
    requires a.db.names.Keys == view.db.data.Keys
    requires forall f :: f in a.db.names ==> a.db.names[f] == view.db.Names(f)
    ensures Views(s, a)
  {
    forall f
      ensures NamesAgree(s.ids, s.names, a.db, f)
    {
      assert NamesAgree(s.ids, s.names, view.db, f);
    }
    assert view.Sound(Listed) && view.Sound(Ordered);
    assert a.Sound(Listed) && a.Sound(Ordered);
  }

  ghost predicate ViewsNow(seal: Seal, s: State, a: ScanDb) {
    Views(s, a)
  }

  /** Views, sealed. */
  ghost predicate IsViewOf(s: State, a: ScanDb) {
    (forall seal :: ViewsNow(seal, s, a)) && a.db.data.Keys == s.ids.Keys
  }

  /** A view can be taken over what is read, name by name. */
  lemma ReadIsShown(stores: Stores, view: ScanDb, a: ScanDb)
    requires Shows(stores, view) && a.keys == view.keys && a.hidden == view.hidden
    requires a.db.hashes == view.db.hashes && a.db.data == view.db.data
    requires a.db.names.Keys == view.db.data.Keys
    requires forall f :: f in a.db.names ==> a.db.names[f] == view.db.Names(f)
    ensures Shows(stores, a) && IsViewOf(stores.state, a)
  {
    assert ShowNow(Seal, stores, view);
    ReadIsView(stores.state, view, a);
  }

  /** The whole database of any stores at rest. */
  method ReadDb(stores: Stores) returns (a: ScanDb)
    requires Rests(stores)
    ensures Shows(stores, a) && IsViewOf(stores.state, a)
  {
    ghost var view := SomeViewShown(stores);
    var hashes, keys, hidden := ReadHashes(stores, view);
    ShownIsHeld(stores, view);
    var data, names := ReadSources(stores, view.db);
    a := ScanDb(Db(hashes, data, names), keys, hidden);
    ReadIsShown(stores, view, a);
  }

  // ---------- one call on the stores ----------

  method Perform(stores: Stores, call: ImportManager.Call)
    requires stores.Matches() && ImportManager.Inv(stores.state) && stores.state.threads == [ImportManager.Idle]
    requires |stores.state.ids| + 6 < TWO_TO_THE_64 && Writable(call)
    modifies stores, stores.hashData, stores.filter, stores.ids, stores.data, stores.changes
    ensures stores.Matches() && stores.state == ScanManager.Whole(old(stores.state), call)
  {
    ghost var n := |stores.state.ids|;
    Take(stores, ImportManager.Begin(0, call), n);
    Take(stores, ImportManager.Advance(0), n + 1);
    Take(stores, ImportManager.Advance(0), n + 2);
    Take(stores, ImportManager.Advance(0), n + 3);
    Take(stores, ImportManager.Advance(0), n + 4);
  }

  method Take(stores: Stores, e: ImportManager.Event, ghost n: nat)
    requires stores.Matches() && ImportManager.Inv(stores.state) && |stores.state.ids| <= n
    requires n + 1 < TWO_TO_THE_64 && (e.Begin? ==> Writable(e.call))
    modifies stores, stores.hashData, stores.filter, stores.ids, stores.data, stores.changes
    ensures stores.Matches() && stores.state == ImportManager.Next(old(stores.state), e)
    ensures ImportManager.Inv(stores.state) && |stores.state.ids| <= n + 1
  {
    ImportManager.NextKeeps(stores.state, e, n);
    stores.Step(e);
  }

  // ---------- a command's copies on the stores ----------

  /** The stores can take one more source. */
  ghost predicate Room(db: Db, all: set<ByteString>) {
    db.data.Keys <= all && |all| + 6 < TWO_TO_THE_64
  }

  lemma RoomForIds(s: State, db: Db, all: set<ByteString>)
    requires Stands(s, db) && Room(db, all)
    ensures |s.ids| + 6 < TWO_TO_THE_64
  {
    NoLarger(s.ids.Keys, all);
    assert |s.ids.Keys| == |s.ids|;
  }

  lemma {:induction false} NoLarger(a: set<ByteString>, b: set<ByteString>)
    requires a <= b
    ensures |a| <= |b|
  {
    if a == {} {
    } else {
      var x :| x in a;
      NoLarger(a - {x}, b - {x});
    }
  }

  /** A copy that the stores can hold. */
  predicate Fits(c: Copy) {
    && Lmdb.IsKey(c.h) && Lmdb.IsKey(c.f) && c.kEntropy < TWO_TO_THE_64 && c.subCount < TWO_TO_THE_64
    && SourceStores.Storable(c.info) && |c.info.fileType| < SourceStores.MAX_TEXT
  }

  method MergeOnStores(stores: Stores, c: Copy, ghost db: Db, ghost all: set<ByteString>)
    requires Hold(stores, db) && Room(db, all) && Fits(c)
    modifies stores, stores.hashData, stores.filter, stores.ids, stores.data, stores.changes
    ensures Hold(stores, WithHash(db, c.h, c.kEntropy, c.blockLabel, c.f, c.subCount))
  {
    assert HoldNow(Seal, stores, db);
    RoomForIds(stores.state, db, all);
    MergeStands(stores.state, db, c.h, c.kEntropy, c.blockLabel, c.f, c.subCount);
    Perform(stores, ImportManager.MergeHash(c.h, c.kEntropy, c.blockLabel, c.f, c.subCount));
  }

  method DataOnStores(stores: Stores, c: Copy, ghost db: Db, ghost all: set<ByteString>)
    requires Hold(stores, db) && Room(db, all) && Fits(c)
    modifies stores, stores.hashData, stores.filter, stores.ids, stores.data, stores.changes
    ensures Hold(stores, WithData(db, c.f, c.info))
  {
    assert HoldNow(Seal, stores, db);
    RoomForIds(stores.state, db, all);
    DataIsInserted(stores.state, db, c.f, c.info);
    Perform(stores, ImportManager.InsertSourceData(c.f, c.info));
  }

  method NameOnStores(stores: Stores, f: ByteString, name: Name, ghost db: Db, ghost all: set<ByteString>)
    requires Hold(stores, db) && Room(db, all) && Lmdb.IsKey(f)
    modifies stores, stores.hashData, stores.filter, stores.ids, stores.data, stores.changes
    ensures Hold(stores, WithNames(db, f, {name}))
  {
    assert HoldNow(Seal, stores, db);
    RoomForIds(stores.state, db, all);
    NameIsInserted(stores.state, db, f, name);
    Perform(stores, ImportManager.InsertSourceName(f, name.repository, name.filename));
  }

  method NamesOnStores(stores: Stores, f: ByteString, names: set<Name>, ghost db: Db, ghost all: set<ByteString>)
    requires Hold(stores, db) && Room(db, all) && Lmdb.IsKey(f) && f in all
    modifies stores, stores.hashData, stores.filter, stores.ids, stores.data, stores.changes
    ensures Hold(stores, WithNames(db, f, names))
  {
    var left := names;
    ghost var done: set<Name> := {};
    while left != {}
      invariant left == names - done && done <= names
      invariant Hold(stores, WithNames(db, f, done))
      decreases left
    {
      var name :| name in left;
      WithMoreNames(db, f, done, name);
      NameOnStores(stores, f, name, WithNames(db, f, done), all);
      left, done := left - {name}, done + {name};
    }
    assert done == names;
  }

  /** CopySource on the stores: the source's data and names go along the first time. */
  method CopyOnStores(stores: Stores, c: Copy, first: bool, ghost db: Db, ghost all: set<ByteString>)
    requires Hold(stores, db) && Room(db, all) && Fits(c) && c.f in all
    modifies stores, stores.hashData, stores.filter, stores.ids, stores.data, stores.changes
    ensures var merged := WithHash(db, c.h, c.kEntropy, c.blockLabel, c.f, c.subCount);
            Hold(stores, if first then WithNames(WithData(merged, c.f, c.info), c.f, c.names) else merged)
  {
    ghost var merged := WithHash(db, c.h, c.kEntropy, c.blockLabel, c.f, c.subCount);
    MergeOnStores(stores, c, db, all);
    if first {
      DataOnStores(stores, c, merged, all);
      NamesOnStores(stores, c.f, c.names, WithData(merged, c.f, c.info), all);
    }
  }

  /** The next copy of a command; first says whether its adder meets the source for the first
      time. */
  method NextOnStores(stores: Stores, copies: seq<Copy>, i: nat, first: bool, ghost start: Db,
                      ghost all: set<ByteString>)
    requires i < |copies| && Fits(copies[i]) && copies[i].f in all
    requires Hold(stores, AfterCopies(start, copies, i).db) && Room(AfterCopies(start, copies, i).db, all)
    requires first <==> (copies[i].id, copies[i].f) !in AfterCopies(start, copies, i).processed
    modifies stores, stores.hashData, stores.filter, stores.ids, stores.data, stores.changes
    ensures Hold(stores, AfterCopies(start, copies, i + 1).db) && Room(AfterCopies(start, copies, i + 1).db, all)
  {
    ghost var p := AfterCopies(start, copies, i);
    OpenCopy(p, copies[i]);
    CopyOnStores(stores, copies[i], first, p.db, all);
  }

  lemma ProcessedNext(start: Db, copies: seq<Copy>, i: nat)
    requires i < |copies|
    ensures AfterCopies(start, copies, i + 1).processed
            == AfterCopies(start, copies, i).processed + {(copies[i].id, copies[i].f)}
  {
    OpenCopy(AfterCopies(start, copies, i), copies[i]);
  }

  /** The copies of a whole command, in their order. */
  method CopiesOnStores(stores: Stores, copies: seq<Copy>, ghost start: Db, ghost all: set<ByteString>)
    requires Hold(stores, start) && Room(start, all)
    requires forall c :: c in copies ==> Fits(c) && c.f in all
    modifies stores, stores.hashData, stores.filter, stores.ids, stores.data, stores.changes
    ensures Hold(stores, AfterCopies(start, copies, |copies|).db)
  {
    var processed: set<(nat, ByteString)> := {};
    for i := 0 to |copies|
      invariant Hold(stores, AfterCopies(start, copies, i).db) && Room(AfterCopies(start, copies, i).db, all)
      invariant processed == AfterCopies(start, copies, i).processed
    {
      assert copies[i] in copies;
      var x := (copies[i].id, copies[i].f);
      NextOnStores(stores, copies, i, x !in processed, start, all);
      ProcessedNext(start, copies, i);
      processed := processed + {x};
    }
  }

  // ---------- a whole command ----------

  lemma InfoFits(s: State, db: Db, f: ByteString)
    requires Stands(s, db) && Storable(s) && f in db.data
    ensures Lmdb.IsKey(f) && SourceStores.Ok(ImportManager.SourceData(f, db.data[f]))
  {
    assert f in s.ids && s.ids[f] in s.data;
  }

  /** What a command copies from databases that stores show, other stores can hold. */
  lemma CopyFits(c: Copy, op: SetOperations.Operation, sa: State, a: ScanDb, sb: State, b: ScanDb,
                 skip: set<ByteString>)
    requires Views(sa, a) && Storable(sa) && Views(sb, b) && Storable(sb) && SetResults.CopyOk(c, op, a, b, skip)
    ensures Fits(c) && c.f in a.db.data.Keys + b.db.data.Keys
  {
    ViewIsValid(sa, a);
    ViewIsValid(sb, b);
    EntryViewed(sa, a, c.h);
    SetOperations.ChosenKnown(op, a, b, c.h, c.f);
    assert c.f in a.db.data || c.f in b.db.data;
    if c.f in a.db.data {
      InfoFits(sa, a.db, c.f);
    }
    if c.f in b.db.data {
      InfoFits(sb, b.db, c.f);
    }
  }

  lemma HeldIsCited(s: State, db: Db)
    requires Stands(s, db)
    ensures SetResults.WellCited(db)
  {
    forall h, f | f in db.Subs(h)
      ensures f in db.data
    {
      assert Databases.Corresponds(s.entries[h], db.hashes[h], s.ids);
    }
  }

  lemma CopiesFit(copies: seq<Copy>, op: SetOperations.Operation, sa: State, a: ScanDb, sb: State, b: ScanDb,
                  skip: set<ByteString>)
    requires Views(sa, a) && Storable(sa) && Views(sb, b) && Storable(sb)
    requires SetResults.LogOk(copies, op, a, b, skip, |a.keys|)
    ensures forall c :: c in copies ==> Fits(c) && c.f in a.db.data.Keys + b.db.data.Keys
  {
    forall i | 0 <= i < |copies|
      ensures Fits(copies[i]) && copies[i].f in a.db.data.Keys + b.db.data.Keys
    {
      CopyFits(copies[i], op, sa, a, sb, b, skip);
    }
  }

  /** The pairs are the old ones and those chosen of sources that were not known. */
  ghost predicate Joined(op: SetOperations.Operation, a: ScanDb, b: ScanDb, start: Db, now: Db) {
    forall h, f :: Lookup(now.Subs(h), f)
                   == if SetResults.Takes(op, a, b, start, h, f) then Some(SetOperations.Chosen(op, a, b, h)[f])
                      else Lookup(start.Subs(h), f)
  }

  lemma CopiesJoin(copies: seq<Copy>, op: SetOperations.Operation, a: ScanDb, b: ScanDb, start: Db)
    requires a.Valid() && b.Valid() && SetResults.WellCited(start)
    requires SetResults.LogOk(copies, op, a, b, start.data.Keys, |a.keys|)
    ensures Joined(op, a, b, start, AfterCopies(start, copies, |copies|).db)
  {
    forall h, f {
      SetResults.PairsOfCommand(op, a, b, start, copies, h, f);
    }
  }

  lemma CopiesServe(copies: seq<Copy>, op: SetOperations.Operation, sa: State, a: ScanDb, sb: State, b: ScanDb,
                    start: Db)
    requires Views(sa, a) && Storable(sa) && Views(sb, b) && Storable(sb) && SetResults.WellCited(start)
    requires var other := if SetResults.OnSets(op) then b else a;
             SetResults.LogOk(copies, op, a, other, start.data.Keys, |a.keys|)
    ensures forall c :: c in copies ==> Fits(c) && c.f in start.data.Keys + a.db.data.Keys + b.db.data.Keys
    ensures Joined(op, a, if SetResults.OnSets(op) then b else a, start, AfterCopies(start, copies, |copies|).db)
  {
    ViewIsValid(sa, a);
    ViewIsValid(sb, b);
    if SetResults.OnSets(op) {
      CopiesFit(copies, op, sa, a, sb, b, start.data.Keys);
      CopiesJoin(copies, op, a, b, start);
    } else {
      CopiesFit(copies, op, sa, a, sa, a, start.data.Keys);
      CopiesJoin(copies, op, a, a, start);
    }
  }

  /** The command on the databases as they were read, with its copies kept. */
  method Collect(op: SetOperations.Operation, a: ScanDb, b: ScanDb, db: Db) returns (copies: seq<Copy>)
    requires SetResults.Named(op) && a.Valid() && b.Valid() && a.hidden == {}
    requires SetResults.AllNamed(op, a, db.data.Keys)
    ensures SetResults.LogOk(copies, op, a, if SetResults.OnSets(op) then b else a, db.data.Keys, |a.keys|)
  {
    var importDb := new ImportDb(db);
    SetResults.RunCommand(op, a, b, importDb);
    copies := importDb.log;
  }

  /** A command that reads databases which stores show and writes to stores: the destination
      holds its old pairs and the chosen ones of sources that it did not know. */
  method RunOnStores(op: SetOperations.Operation, a: ScanDb, b: ScanDb, dest: Stores, db: Db,
                     ghost sa: Stores, ghost sb: Stores) returns (copies: seq<Copy>)
    requires SetResults.Named(op) && Shows(sa, a) && Shows(sb, b) && a.hidden == {} && Hold(dest, db)
    requires SetResults.AllNamed(op, a, db.data.Keys)
    requires |db.data.Keys + a.db.data.Keys + b.db.data.Keys| + 6 < TWO_TO_THE_64
    modifies dest, dest.hashData, dest.filter, dest.ids, dest.data, dest.changes
    ensures Hold(dest, AfterCopies(db, copies, |copies|).db)
    ensures var other := if SetResults.OnSets(op) then b else a;
            && SetResults.LogOk(copies, op, a, other, db.data.Keys, |a.keys|)
            && Joined(op, a, other, db, AfterCopies(db, copies, |copies|).db)
  {
    assert ShowNow(Seal, sa, a) && ShowNow(Seal, sb, b) && HoldNow(Seal, dest, db);
    MatchingIsStorable(sa);
    MatchingIsStorable(sb);
    HeldIsCited(dest.state, db);
    ViewIsValid(sa.state, a);
    ViewIsValid(sb.state, b);
    copies := Collect(op, a, b, db);
    CopiesServe(copies, op, sa.state, a, sb.state, b, db);
    CopiesOnStores(dest, copies, db, db.data.Keys + a.db.data.Keys + b.db.data.Keys);
  }

  lemma HeldRests(stores: Stores, db: Db)
    requires Hold(stores, db)
    ensures Rests(stores)
  {
    assert HoldNow(Seal, stores, db);
  }

  /** A command from stores to stores: A must not hide a hash, and for add and add_range
      must have a name for every source that they copy. */
  method CommandOnStores(op: SetOperations.Operation, a: Stores, b: Stores, dest: Stores)
    returns (scanA: ScanDb, scanB: ScanDb, scanDest: ScanDb, copies: seq<Copy>)
    requires Rests(a) && Rests(b) && Rests(dest) && SetResults.Named(op)
    requires forall view :: IsViewOf(a.state, view) ==>
                              view.hidden == {} && SetResults.AllNamed(op, view, dest.state.ids.Keys)
    requires |dest.state.ids.Keys + a.state.ids.Keys + b.state.ids.Keys| + 6 < TWO_TO_THE_64
    modifies dest, dest.hashData, dest.filter, dest.ids, dest.data, dest.changes
    ensures old(Shows(a, scanA)) && old(Shows(b, scanB)) && old(Shows(dest, scanDest))
    ensures Rests(dest) && Hold(dest, AfterCopies(scanDest.db, copies, |copies|).db)
    ensures Joined(op, scanA, if SetResults.OnSets(op) then scanB else scanA, scanDest.db,
                   AfterCopies(scanDest.db, copies, |copies|).db)
  {
    scanA := ReadDb(a);
    scanB := ReadDb(b);
    scanDest := ReadDb(dest);
    ShownIsHeld(dest, scanDest);
    copies := RunOnStores(op, scanA, scanB, dest, scanDest.db, a, b);
    HeldRests(dest, AfterCopies(scanDest.db, copies, |copies|).db);
  }
}
