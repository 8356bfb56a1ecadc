/** How the sorted pairs of the hash data store stand for the simple map, and why
    each of the store's record operations keeps that so. */
module HashDataRepresentation {
  import opened ByteStrings
  import opened Lmdb
  import opened HashDataRecords
  import opened HashDataModel

  ghost function Type1Of(e: Entry, s: nat): ByteString
    requires s in e.subs
  {
    Type1(e.kEntropy, e.blockLabel, s, e.subs[s])
  }

  ghost function Type3s(subs: map<nat, nat>): set<ByteString> {
    set s | s in subs :: Type3(s, subs[s])
  }

  /** The records of one hash: one Type 1, or a Type 2 header and a Type 3 per source. */
  ghost function Records(e: Entry, header: ByteString): set<ByteString> {
    if |e.subs| == 1 then set s | s in e.subs :: Type1Of(e, s) else {header} + Type3s(e.subs)
  }

  /** With several sources the header starts with the Type 2 encoding and still has
      room in the encoder's buffer; what bytes fill it up does not matter. */
  ghost predicate HeaderOk(e: Entry, header: ByteString) {
    |e.subs| > 1 ==> IsHeader(header, e.kEntropy, e.blockLabel, e.stored) && |header| <= TYPE1_MAX_SIZE
  }

  /** The data stored under key h is exactly the set rs. */
  ghost predicate Holds(db: seq<Pair>, h: ByteString, rs: set<ByteString>) {
    forall d :: Pair(h, d) in db <==> d in rs
  }

  /** Nothing changed under other keys. */
  ghost predicate SameElsewhere(db: seq<Pair>, db': seq<Pair>, h: ByteString) {
    forall p: Pair :: p.key != h ==> (p in db' <==> p in db)
  }

  ghost predicate Represents(db: seq<Pair>, model: map<ByteString, Entry>, headers: map<ByteString, ByteString>) {
    && Sorted(db) && headers.Keys == model.Keys
    && (forall h :: h in model ==> IsKey(h) && model[h].Ok() && HeaderOk(model[h], headers[h]))
    && (forall p: Pair :: p in db <==> p.key in model && p.data in Records(model[p.key], headers[p.key]))
  }

  lemma HasKeyIsInModel(db: seq<Pair>, model: map<ByteString, Entry>, headers: map<ByteString, ByteString>,
                        h: ByteString)
    requires Represents(db, model, headers)
    ensures HasKey(db, h) <==> h in model
    ensures h in model ==> Holds(db, h, Records(model[h], headers[h]))
    ensures h !in model ==> Holds(db, h, {})
  {
    if HasKey(db, h) {
      var i :| 0 <= i < |db| && db[i].key == h;
      assert db[i] in db;
    }
    if h in model {
      var e := model[h];
      var s :| s in e.subs;
      var d := if |e.subs| == 1 then Type1Of(e, s) else headers[h];
      assert d in Records(e, headers[h]);
      assert Pair(h, d) in db;
    }
  }

  /** Changing the records of one hash to those of a new entry changes the map there. */
  lemma Update(db: seq<Pair>, db': seq<Pair>, model: map<ByteString, Entry>, headers: map<ByteString, ByteString>,
               h: ByteString, e: Entry, header: ByteString)
    requires Represents(db, model, headers) && IsKey(h)
    requires Sorted(db') && SameElsewhere(db, db', h) && Holds(db', h, Records(e, header))
    requires e.Ok() && HeaderOk(e, header)
    ensures Represents(db', model[h := e], headers[h := header])
  {
    forall p: Pair
      ensures p in db' <==> p.key in model[h := e] &&
                            p.data in Records(model[h := e][p.key], headers[h := header][p.key])
    {
      if p.key == h {
        assert p == Pair(h, p.data);
      }
    }
  }

  lemma HoldsInserted(db: seq<Pair>, h: ByteString, d: ByteString, rs: set<ByteString>)
    requires Sorted(db) && Holds(db, h, rs) && d !in rs
    ensures Pair(h, d) !in db
    ensures Sorted(Inserted(db, Pair(h, d)))
    ensures Holds(Inserted(db, Pair(h, d)), h, rs + {d})
    ensures SameElsewhere(db, Inserted(db, Pair(h, d)), h)
  {
    InsertedSorted(db, Pair(h, d));
  }

  lemma HoldsReplaced(db: seq<Pair>, at: nat, h: ByteString, d: ByteString, rs: set<ByteString>)
    requires Sorted(db) && Holds(db, h, rs) && at < |db| && db[at].key == h
    requires Sorted(db[at := Pair(h, d)])
    ensures Holds(db[at := Pair(h, d)], h, rs - {db[at].data} + {d})
    ensures SameElsewhere(db, db[at := Pair(h, d)], h)
  {
    ReplacedMembers(db, at, Pair(h, d));
  }

  /** A record may be replaced in place if it compares as before to the other
      records of its hash; other hashes do not matter. */
  lemma SortsAlikeInKey(db: seq<Pair>, at: nat, d: ByteString, rs: set<ByteString>)
    requires Sorted(db) && at < |db| && Holds(db, db[at].key, rs)
    requires forall r :: r in rs && r != db[at].data ==>
                           && (LexLess(r, db[at].data) ==> LexLess(r, d))
                           && (LexLess(db[at].data, r) ==> LexLess(d, r))
    ensures Sorted(db[at := Pair(db[at].key, d)])
  {
    var h, p := db[at].key, Pair(db[at].key, d);
    forall i | 0 <= i < |db| && i != at
      ensures (Before(db[i], db[at]) ==> Before(db[i], p)) && (Before(db[at], db[i]) ==> Before(p, db[i]))
    {
      if db[i].key == h {
        assert Pair(h, db[i].data) in db;
        if db[i].data == db[at].data {
          NoDuplicates(db, i, at);
        }
        LexIrreflexive(h);
      }
    }
    ReplacedSorted(db, at, p);
  }

  /** The record an update finds first under a hash. */
  lemma FirstRecord(db: seq<Pair>, h: ByteString, e: Entry, header: ByteString)
    requires Sorted(db) && Holds(db, h, Records(e, header)) && e.Ok() && HeaderOk(e, header)
    requires HasKey(db, h)
    ensures var i := Lower(db, Start(h));
            && i < |db| && db[i].key == h
            && (|e.subs| == 1 ==> forall s :: s in e.subs ==> db[i].data == Type1Of(e, s) && db[i].data[0] != 0)
            && (|e.subs| > 1 ==> db[i].data == header && header[0] == 0)
  {
    var i := Lower(db, Start(h));
    HasKeyAtStart(db, h);
    assert Pair(h, db[i].data) in db;
    if |e.subs| == 1 {
      forall s | s in e.subs
        ensures db[i].data == Type1Of(e, s) && db[i].data[0] != 0
      {
        var t :| t in e.subs && db[i].data == Type1Of(e, t);
        SingleSource(e.subs, s, t);
        FirstByte(e.kEntropy, e.blockLabel, s, e.subs[s], e.stored);
      }
    } else {
      HeaderIsFirst(db, h, e, header);
    }
  }

  lemma HeaderOpensWithZero(e: Entry, header: ByteString)
    requires e.Ok() && HeaderOk(e, header) && |e.subs| > 1
    ensures |header| > 0 && header[0] == 0
  {
    FirstByte(e.kEntropy, e.blockLabel, 1, 0, e.stored);
  }

  lemma Type3OpensNonZero(e: Entry, r: ByteString)
    requires e.Ok() && r in Type3s(e.subs)
    ensures |r| > 0 && r[0] != 0
  {
    var s :| s in e.subs && r == Type3(s, e.subs[s]);
    FirstByte(e.kEntropy, e.blockLabel, s, e.subs[s], e.stored);
  }

  lemma HeaderIsFirst(db: seq<Pair>, h: ByteString, e: Entry, header: ByteString)
    requires Sorted(db) && Holds(db, h, Records(e, header)) && e.Ok() && HeaderOk(e, header)
    requires HasKey(db, h) && |e.subs| > 1
    ensures var i := Lower(db, Start(h));
            i < |db| && db[i] == Pair(h, header) && header[0] == 0
  {
    var i := Lower(db, Start(h));
    HasKeyAtStart(db, h);
    var j := HeaderAt(db, h, e, header);
    KeyStart(db, h, j);
    assert Pair(h, db[i].data) in db;
    HeaderOpensWithZero(e, header);
    NoneBeforeHeader(db, i, j, h, e, header);
  }

  lemma NoneBeforeHeader(db: seq<Pair>, i: nat, j: nat, h: ByteString, e: Entry, header: ByteString)
    requires Sorted(db) && i <= j < |db| && db[j] == Pair(h, header) && db[i].key == h
    requires e.Ok() && HeaderOk(e, header) && |e.subs| > 1 && db[i].data in Records(e, header)
    ensures db[i] == Pair(h, header)
  {
    HeaderIsLeast(h, e, header, db[i].data);
    if i < j {
      assert Before(db[i], db[j]);
    }
  }

  lemma HeaderAt(db: seq<Pair>, h: ByteString, e: Entry, header: ByteString) returns (j: nat)
    requires Holds(db, h, Records(e, header)) && |e.subs| > 1
    ensures j < |db| && db[j] == Pair(h, header)
  {
    assert header in Records(e, header);
    assert Pair(h, header) in db;
    j :| 0 <= j < |db| && db[j] == Pair(h, header);
  }

  lemma HeaderIsLeast(h: ByteString, e: Entry, header: ByteString, r: ByteString)
    requires e.Ok() && HeaderOk(e, header) && |e.subs| > 1 && r in Records(e, header)
    ensures header[0] == 0 && (r != header ==> !Before(Pair(h, r), Pair(h, header)))
  {
    HeaderOpensWithZero(e, header);
    if r in Type3s(e.subs) {
      Type3OpensNonZero(e, r);
      ZeroSortsFirst(h, header, r);
    }
  }

  lemma ZeroSortsFirst(h: ByteString, d: ByteString, r: ByteString)
    requires |d| > 0 && |r| > 0 && d[0] == 0 && r[0] != 0
    ensures !Before(Pair(h, r), Pair(h, d))
  {
    LexIrreflexive(h);
  }

  // ---------- each in-place rewrite keeps its sort place ----------

  /** A hash's only record sorts the same whatever it becomes. */
  lemma OnlyRecordFits(db: seq<Pair>, at: nat, d: ByteString)
    requires Sorted(db) && at < |db| && Holds(db, db[at].key, {db[at].data})
    ensures Sorted(db[at := Pair(db[at].key, d)])
  {
    SortsAlikeInKey(db, at, d, {db[at].data});
  }

  /** A Type 2 header stays first: it opens with zero and no Type 3 record does. */
  lemma HeaderFits(db: seq<Pair>, at: nat, e: Entry, header: ByteString, d: ByteString)
    requires Sorted(db) && at < |db| && e.Ok() && |e.subs| > 1 && HeaderOk(e, header)
    requires db[at].data == header && Holds(db, db[at].key, Records(e, header))
    requires |d| > 0 && d[0] == 0
    ensures Sorted(db[at := Pair(db[at].key, d)])
  {
    HeaderOpensWithZero(e, header);
    forall r | r in Records(e, header) && r != header
      ensures LexLess(d, r) && !LexLess(r, header)
    {
      Type3OpensNonZero(e, r);
    }
    SortsAlikeInKey(db, at, d, Records(e, header));
  }

  /** A Type 3 record sorts by its source id, so a new sub-count does not move it. */
  lemma Type3Fits(db: seq<Pair>, at: nat, e: Entry, header: ByteString, s: nat, c: nat)
    requires Sorted(db) && at < |db| && e.Ok() && |e.subs| > 1 && HeaderOk(e, header)
    requires s in e.subs && db[at].data == Type3(s, e.subs[s]) && Holds(db, db[at].key, Records(e, header))
    ensures Sorted(db[at := Pair(db[at].key, Type3(s, c))])
  {
    var old', new' := Type3(s, e.subs[s]), Type3(s, c);
    forall r | r in Records(e, header) && r != old'
      ensures (LexLess(r, old') ==> LexLess(r, new')) && (LexLess(old', r) ==> LexLess(new', r))
    {
      if r == header {
        FirstByte(e.kEntropy, e.blockLabel, s, e.subs[s], e.stored);
        FirstByte(e.kEntropy, e.blockLabel, s, c, e.stored);
      } else {
        var t :| t in e.subs && r == Type3(t, e.subs[t]);
        Type3Order(s, e.subs[s], c, t, e.subs[t]);
      }
    }
    SortsAlikeInKey(db, at, new', Records(e, header));
  }

  // ---------- the sets of records ----------

  lemma Type3Member(subs: map<nat, nat>, s: nat, c: nat)
    requires forall t :: t in subs ==> subs[t] < 0x1_0000
    ensures Type3(s, c) in Type3s(subs) <==> s in subs && subs[s] == Clip2(c)
  {
    if Type3(s, c) in Type3s(subs) {
      var t :| t in subs && Type3(s, c) == Type3(t, subs[t]);
      Type3Injective(s, c, t, subs[t]);
    }
  }

  lemma Type3sUpdated(subs: map<nat, nat>, s: nat, c: nat)
    requires forall t :: t in subs ==> subs[t] < 0x1_0000
    ensures s in subs ==> Type3s(subs[s := c]) == Type3s(subs) - {Type3(s, subs[s])} + {Type3(s, c)}
    ensures s !in subs ==> Type3s(subs[s := c]) == Type3s(subs) + {Type3(s, c)}
  {
    var after := subs[s := c];
    forall r
      ensures s in subs ==> (r in Type3s(after) <==> r in Type3s(subs) - {Type3(s, subs[s])} + {Type3(s, c)})
      ensures s !in subs ==> (r in Type3s(after) <==> r in Type3s(subs) + {Type3(s, c)})
    {
      if r in Type3s(after) {
        var t :| t in after && r == Type3(t, after[t]);
        if t != s {
          assert t in subs && r == Type3(t, subs[t]);
          if s in subs && r == Type3(s, subs[s]) {
            Type3Injective(s, subs[s], t, subs[t]);
          }
        }
      }
      if r in Type3s(subs) {
        var t :| t in subs && r == Type3(t, subs[t]);
        assert t != s ==> t in after && r == Type3(t, after[t]);
      }
      assert s in after && Type3(s, c) == Type3(s, after[s]);
    }
  }
}
