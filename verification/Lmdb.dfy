/** What LMDB documents about a database of sorted duplicates: key/data pairs in
    lexical order, each pair at most once, and a cursor that walks them.  The
    bodies here are a reference reading of those documented contracts. */
module Lmdb {
  import opened ByteStrings

  datatype Pair = Pair(key: ByteString, data: ByteString)

  /** The default limit on the size of keys, and of the data of sorted duplicates. */
  const MAX_KEY_SIZE: nat := 511

  predicate IsKey(k: ByteString) {
    0 < |k| <= MAX_KEY_SIZE
  }

  predicate Before(p: Pair, q: Pair) {
    LexLess(p.key, q.key) || (p.key == q.key && LexLess(p.data, q.data))
  }

  ghost predicate Sorted(s: seq<Pair>) {
    forall i, j :: 0 <= i < j < |s| ==> Before(s[i], s[j])
  }

  lemma BeforeTransitive(p: Pair, q: Pair, r: Pair)
    requires Before(p, q) && Before(q, r)
    ensures Before(p, r)
  {
    if LexLess(p.key, q.key) && LexLess(q.key, r.key) {
      LexTransitive(p.key, q.key, r.key);
    } else if p.key == q.key == r.key {
      LexTransitive(p.data, q.data, r.data);
    }
  }

  lemma BeforeTotal(p: Pair, q: Pair)
    ensures p == q || Before(p, q) || Before(q, p)
  {
    if p.key != q.key {
      LexTotal(p.key, q.key);
    } else if p.data != q.data {
      LexTotal(p.data, q.data);
    }
  }

  lemma BeforeIrreflexive(p: Pair)
    ensures !Before(p, p)
  {
    LexIrreflexive(p.key);
    LexIrreflexive(p.data);
  }

  lemma BeforeAsymmetric(p: Pair, q: Pair)
    requires Before(p, q)
    ensures !Before(q, p)
  {
    if Before(q, p) {
      BeforeTransitive(p, q, p);
      BeforeIrreflexive(p);
    }
  }

  /** The index of the first pair not before p. */
  function Lower(s: seq<Pair>, p: Pair): (i: nat)
    ensures i <= |s|
    ensures forall j :: 0 <= j < i ==> Before(s[j], p)
    ensures i < |s| ==> !Before(s[i], p)
  {
    if |s| == 0 || !Before(s[0], p) then 0 else 1 + Lower(s[1..], p)
  }

  /** From that index on, no pair is before p. */
  lemma LowerSplits(s: seq<Pair>, p: Pair, j: nat)
    requires Sorted(s) && Lower(s, p) <= j < |s|
    ensures !Before(s[j], p)
  {
    var i := Lower(s, p);
    if i < j && Before(s[j], p) {
      BeforeTransitive(s[i], s[j], p);
    }
  }

  ghost predicate HasKey(s: seq<Pair>, k: ByteString) {
    exists i :: 0 <= i < |s| && s[i].key == k
  }

  /** The least pair of key k, present or not. */
  function Start(k: ByteString): Pair {
    Pair(k, [])
  }

  lemma StartIsLeast(p: Pair)
    ensures !Before(p, Start(p.key))
  {
    LexIrreflexive(p.key);
  }

  /** A key's pairs start at the first index not before the key with empty data. */
  lemma KeyStart(s: seq<Pair>, k: ByteString, j: nat)
    requires Sorted(s) && j < |s| && s[j].key == k
    ensures Lower(s, Start(k)) <= j
    ensures s[Lower(s, Start(k))].key == k
  {
    StartIsLeast(s[j]);
    FirstOfKey(s, k, j, Lower(s, Start(k)));
  }

  lemma FirstOfKey(s: seq<Pair>, k: ByteString, j: nat, i: nat)
    requires Sorted(s) && j < |s| && s[j].key == k && !Before(s[j], Start(k)) && i <= |s|
    requires forall m :: 0 <= m < i ==> Before(s[m], Start(k))
    requires i < |s| ==> !Before(s[i], Start(k))
    ensures i <= j && s[i].key == k
  {
    if i < j {
      NotBeforeStart(s[i], s[j]);
    }
  }

  lemma NotBeforeStart(p: Pair, q: Pair)
    requires Before(p, q) && !Before(p, Start(q.key))
    ensures p.key == q.key
  {
  }

  lemma HasKeyAtStart(s: seq<Pair>, k: ByteString)
    requires Sorted(s)
    ensures HasKey(s, k) <==> Lower(s, Start(k)) < |s| && s[Lower(s, Start(k))].key == k
  {
    if HasKey(s, k) {
      var j :| 0 <= j < |s| && s[j].key == k;
      KeyStart(s, k, j);
    }
  }

  /** Pairs of one key stand together. */
  lemma KeyContiguous(s: seq<Pair>, i: nat, m: nat, j: nat)
    requires Sorted(s) && i < m < j < |s| && s[i].key == s[j].key
    ensures s[m].key == s[i].key
  {
    assert Before(s[i], s[m]) && Before(s[m], s[j]);
    if s[m].key != s[i].key {
      LexTransitive(s[i].key, s[m].key, s[j].key);
      LexIrreflexive(s[i].key);
    }
  }

  function Inserted(s: seq<Pair>, p: Pair): seq<Pair> {
    s[..Lower(s, p)] + [p] + s[Lower(s, p)..]
  }

  /** Inserting at the lower bound keeps the order and adds exactly that pair. */
  lemma InsertedSorted(s: seq<Pair>, p: Pair)
    requires Sorted(s) && p !in s
    ensures Sorted(Inserted(s, p))
    ensures forall q :: q in Inserted(s, p) <==> q == p || q in s
  {
    var k, t := Lower(s, p), Inserted(s, p);
    forall i, j | 0 <= i < j < |t|
      ensures Before(t[i], t[j])
    {
      if i == k {
        LowerSplits(s, p, j - 1);
        assert s[j - 1] in s;
        BeforeTotal(s[j - 1], p);
      } else if i < k < j {
        LowerSplits(s, p, j - 1);
        assert s[j - 1] in s;
        BeforeTotal(s[j - 1], p);
        BeforeTransitive(s[i], p, s[j - 1]);
      }
    }
    forall q
      ensures q in t <==> q == p || q in s
    {
      assert t[k] == p;
      if q in s {
        var i :| 0 <= i < |s| && s[i] == q;
        assert t[if i < k then i else i + 1] == q;
      }
    }
  }

  /** A record may be replaced in place when it compares to every other as before. */
  ghost predicate SortsAlike(s: seq<Pair>, at: nat, p: Pair)
    requires at < |s|
  {
    forall i :: 0 <= i < |s| && i != at ==>
                  (Before(s[i], s[at]) ==> Before(s[i], p)) && (Before(s[at], s[i]) ==> Before(p, s[i]))
  }

  lemma ReplacedSorted(s: seq<Pair>, at: nat, p: Pair)
    requires Sorted(s) && at < |s| && SortsAlike(s, at, p)
    ensures Sorted(s[at := p])
  {
  }

  lemma NoDuplicates(s: seq<Pair>, i: nat, j: nat)
    requires Sorted(s) && i < |s| && j < |s| && s[i] == s[j]
    ensures i == j
  {
    BeforeIrreflexive(s[i]);
  }

  lemma ReplacedMembers(s: seq<Pair>, at: nat, p: Pair)
    requires Sorted(s) && at < |s| && Sorted(s[at := p])
    ensures forall q :: q in s[at := p] <==> q == p || (q in s && q != s[at])
  {
    var t := s[at := p];
    forall q
      ensures q in t <==> q == p || (q in s && q != s[at])
    {
      assert t[at] == p;
      if q in s && q != s[at] {
        var i :| 0 <= i < |s| && s[i] == q;
        assert t[i] == q;
      }
      if q in t && q != p {
        var i :| 0 <= i < |t| && t[i] == q;
        if s[i] == s[at] {
          NoDuplicates(s, i, at);
        }
      }
    }
  }

  /** lmdb_context_t: a transaction's view of one database with a cursor, and the
      key and data it was last given or last returned. */
  class Context {
    var db: seq<Pair>
    var at: nat
    var key: ByteString
    var data: ByteString

    /** open(): a transaction starts from the committed pairs. */
    constructor (env: seq<Pair>)
      ensures db == env
    {
      db := env;
      at := 0;
      key, data := [], [];
    }

    /** The cursor stands on a pair and key and data are that pair. */
    ghost predicate Loaded()
      reads this
    {
      at < |db| && db[at] == Pair(key, data)
    }

    /** MDB_SET_KEY: stand on the first pair of key k; false is MDB_NOTFOUND. */
    method SetKey(k: ByteString) returns (found: bool)
      requires Sorted(db)
      modifies this`at, this`key, this`data
      ensures found <==> HasKey(db, k)
      ensures found ==> Loaded() && key == k && at == Lower(db, Start(k))
    {
      HasKeyAtStart(db, k);
      var i := Lower(db, Start(k));
      found := i < |db| && db[i].key == k;
      if found {
        at, key, data := i, db[i].key, db[i].data;
      }
    }

    /** MDB_FIRST: stand on the first pair of the database. */
    method First() returns (found: bool)
      modifies this`at, this`key, this`data
      ensures found <==> |db| > 0
      ensures found ==> Loaded() && at == 0
    {
      found := |db| > 0;
      if found {
        at, key, data := 0, db[0].key, db[0].data;
      }
    }

    /** MDB_NEXT: step to the next pair of the database. */
    method Next() returns (found: bool)
      requires at < |db|
      modifies this`at, this`key, this`data
      ensures found <==> old(at) + 1 < |db|
      ensures found ==> Loaded() && at == old(at) + 1
      ensures !found ==> at == old(at) && key == old(key) && data == old(data)
    {
      found := at + 1 < |db|;
      if found {
        at, key, data := at + 1, db[at + 1].key, db[at + 1].data;
      }
    }

    /** MDB_NEXT_DUP: step to the next pair of the same key. */
    method NextDup() returns (found: bool)
      requires at < |db|
      modifies this`at, this`key, this`data
      ensures found <==> old(at) + 1 < |db| && db[old(at) + 1].key == db[old(at)].key
      ensures found ==> Loaded() && at == old(at) + 1
      ensures !found ==> at == old(at) && key == old(key) && data == old(data)
    {
      found := at + 1 < |db| && db[at + 1].key == db[at].key;
      if found {
        at, key, data := at + 1, db[at + 1].key, db[at + 1].data;
      }
    }

    /** MDB_FIRST_DUP: step back to the first pair of the same key. */
    method FirstDup()
      requires Sorted(db) && at < |db|
      modifies this`at, this`key, this`data
      ensures Loaded() && key == db[old(at)].key && at == Lower(db, Start(db[old(at)].key))
    {
      KeyStart(db, db[at].key, at);
      at := Lower(db, Start(db[at].key));
      key, data := db[at].key, db[at].data;
    }

    /** MDB_NEXT_NODUP: step to the first pair of the next key. */
    method NextNoDup() returns (found: bool)
      requires at < |db|
      modifies this`at, this`key, this`data
      ensures !found ==> forall i :: old(at) <= i < |db| ==> db[i].key == db[old(at)].key
      ensures found ==> Loaded() && at > old(at) && key != db[old(at)].key
      ensures found ==> forall i :: old(at) <= i < at ==> db[i].key == db[old(at)].key
    {
      var i := at + 1;
      while i < |db| && db[i].key == db[at].key
        invariant at < i <= |db|
        invariant forall j :: at <= j < i ==> db[j].key == db[at].key
      {
        i := i + 1;
      }
      found := i < |db|;
      if found {
        at, key, data := i, db[i].key, db[i].data;
      }
    }

    /** MDB_NODUPDATA: add a pair, or report MDB_KEYEXIST; stand on the new pair.  Key
        and data must be within LMDB's limits. */
    method PutNoDupData(k: ByteString, d: ByteString) returns (added: bool)
      requires Sorted(db) && IsKey(k) && |d| <= MAX_KEY_SIZE
      modifies this
      ensures added <==> Pair(k, d) !in old(db)
      ensures added ==> Loaded() && key == k && data == d && db == Inserted(old(db), Pair(k, d))
      ensures !added ==> db == old(db)
    {
      added := Pair(k, d) !in db;
      if added {
        at := Lower(db, Pair(k, d));
        db := Inserted(db, Pair(k, d));
        key, data := k, d;
      }
    }

    /** MDB_CURRENT: replace the pair at the cursor.  The key must match, the size
        must stay, and the data must still sort into the same place. */
    method PutCurrent(k: ByteString, d: ByteString)
      requires at < |db| && k == db[at].key && |d| == |db[at].data|
      requires Sorted(db[at := Pair(k, d)])
      modifies this`db, this`key, this`data
      ensures db == old(db)[at := Pair(k, d)] && Loaded() && key == k && data == d
    {
      db := db[at := Pair(k, d)];
      key, data := k, d;
    }
  }
}
