/** Whole databases as the set operations see them: hashes with the sources they were
    found in, keyed by file hash, and each source's data and names. */
module Databases {
  import opened ByteStrings
  import opened HashDataRecords
  import opened HashDataModel
  import opened Sources

  datatype Name = Name(repository: ByteString, filename: ByteString)

  /** stored is the count as the hash data store holds it, Count as it reads back. */
  datatype HashData = HashData(kEntropy: nat, blockLabel: ByteString, stored: nat, subs: map<ByteString, nat>)
  {
    function Count(): U64 {
      SignExtend(Clip4(stored))
    }
  }

  datatype Db = Db(hashes: map<ByteString, HashData>, data: map<ByteString, Info>, names: map<ByteString, set<Name>>)
  {
    /** The sub-counts on record for a hash. */
    function Subs(h: ByteString): map<ByteString, nat> {
      if h in hashes then hashes[h].subs else map[]
    }

    function Names(f: ByteString): set<Name> {
      if f in names then names[f] else {}
    }
  }

  const EMPTY: Db := Db(map[], map[], map[])

  // ---------- the import manager's calls ----------

  /** What merge_hash leaves of a hash: a source on record stays as it is. */
  function Merged(prev: Option<HashData>, kEntropy: nat, blockLabel: ByteString, f: ByteString,
                  subCount: nat): HashData
  {
    match prev
    case None => HashData(kEntropy, Truncate(blockLabel), Clip2(subCount), map[f := Clip2(subCount)])
    case Some(e) =>
      if f in e.subs then e
      else e.(stored := Add4(e.Count(), subCount), subs := e.subs[f := Clip2(subCount)])
  }

  function WithSource(data: map<ByteString, Info>, f: ByteString): map<ByteString, Info> {
    if f in data then data else data[f := BLANK]
  }

  function WithHash(db: Db, h: ByteString, kEntropy: nat, blockLabel: ByteString, f: ByteString, subCount: nat): Db {
    Db(db.hashes[h := Merged(Lookup(db.hashes, h), kEntropy, blockLabel, f, subCount)], WithSource(db.data, f),
      db.names)
  }

  function WithData(db: Db, f: ByteString, info: Info): Db {
    db.(data := db.data[f := info])
  }

  /** With names; none at all leave the database alone. */
  function WithNames(db: Db, f: ByteString, names: set<Name>): Db {
    if names == {} then db else db.(names := db.names[f := db.Names(f) + names], data := WithSource(db.data, f))
  }

  /** An entry keyed by source id and one keyed by file hash say the same. */
  ghost predicate Corresponds(e: Entry, d: HashData, ids: map<ByteString, nat>) {
    && e.kEntropy == d.kEntropy && e.blockLabel == d.blockLabel && e.stored == d.stored
    && (forall f :: f in d.subs ==> f in ids && ids[f] in e.subs && e.subs[ids[f]] == d.subs[f])
    && (forall f :: f in ids && ids[f] in e.subs ==> f in d.subs)
  }

  /** The hash data store's merge, seen through the one-to-one source ids, is Merged. */
  lemma MergeCorresponds(prev: Option<Entry>, d: Option<HashData>, ids: map<ByteString, nat>, kEntropy: nat,
                         blockLabel: ByteString, f: ByteString, subCount: nat)
    requires f in ids && forall g, h :: g in ids && h in ids && ids[g] == ids[h] ==> g == h
    requires prev.Some? <==> d.Some?
    requires prev.Some? ==> Corresponds(prev.value, d.value, ids)
    ensures Corresponds(AfterMerge(prev, kEntropy, Truncate(blockLabel), ids[f], subCount),
                        Merged(d, kEntropy, blockLabel, f, subCount), ids)
  {
  }

  // ---------- a database that is read ----------

  datatype ScanPart = Listed | Ordered | Sourced

  /** A database as a scan manager sees it: its hashes in order, and those that the prefix
      filter hides. */
  datatype ScanDb = ScanDb(db: Db, keys: seq<ByteString>, hidden: set<ByteString>)
  {
    /** Hashes are listed in order; every cited source has data, but may have no name;
        sub-counts are the two-byte values they are stored as. The parts open one at a time. */
    ghost predicate Valid() {
      forall part :: Sound(part)
    }

    ghost predicate Sound(part: ScanPart) {
      match part
      case Listed => forall h :: h in keys <==> h in db.hashes
      case Ordered => forall i, j :: 0 <= i < j < |keys| ==> LexLess(keys[i], keys[j])
      case Sourced => forall h :: h in db.hashes ==> HashOk(h)
    }

    ghost predicate HashOk(h: ByteString)
      requires h in db.hashes
    {
      && h != [] && |db.hashes[h].blockLabel| <= MAX_LABEL_SIZE && |db.hashes[h].subs| > 0
      && (forall f :: f in db.hashes[h].subs ==>
                        f != [] && db.hashes[h].subs[f] < 0x1_0000 && f in db.data)
    }

    predicate Found(h: ByteString) {
      h in db.hashes && h !in hidden
    }

    /** find_hash's sub-counts: none when it finds nothing. */
    function FoundSubs(h: ByteString): map<ByteString, nat> {
      if Found(h) then db.Subs(h) else map[]
    }

    /** find_hash_count does not ask the filter. */
    function Count(h: ByteString): nat {
      if h in db.hashes then db.hashes[h].Count() else 0
    }

    lemma KeysInOrder(i: nat, k: nat)
      requires Valid() && i < |keys| && k < |keys|
      ensures LexLess(keys[i], keys[k]) <==> i < k
    {
      assert Sound(Ordered);
      LexIrreflexive(keys[i]);
      if k < i && LexLess(keys[i], keys[k]) {
        LexTransitive(keys[i], keys[k], keys[i]);
      }
    }

    method FirstHash() returns (h: ByteString)
      ensures h == if keys == [] then [] else keys[0]
    {
      h := if |keys| == 0 then [] else keys[0];
    }

    /** The hash after h, or nothing. */
    method NextHash(h: ByteString, ghost i: nat) returns (next: ByteString)
      requires i < |keys| && keys[i] == h && Valid()
      ensures next == if i + 1 < |keys| then keys[i + 1] else []
    {
      var k := 0;
      while k < |keys| && !LexLess(h, keys[k])
        invariant k <= i + 1 && k <= |keys|
      {
        KeysInOrder(i, k);
        k := k + 1;
      }
      if k < |keys| {
        KeysInOrder(i, k);
        return keys[k];
      }
      return [];
    }
  }
}
