/** Copying sources of hashes from databases into one destination, by any number of
    adders, and what a whole sequence of copies amounts to. */
module Copying {
  import opened ByteStrings
  import opened HashDataRecords
  import opened HashDataModel
  import opened Sources
  import opened Databases

  /** One source of one hash being copied by one adder, with what is known of the source. */
  datatype Copy = Copy(id: nat, h: ByteString, kEntropy: nat, blockLabel: ByteString, f: ByteString, subCount: nat,
                       info: Info, names: set<Name>)

  /** The destination, the sources that each adder has processed, and how often each
      source's data was written. */
  datatype Progress = Progress(db: Db, processed: set<(nat, ByteString)>, writes: multiset<ByteString>)

  /** What the adders do for one source: the source's data and names go along the first
      time the adder meets it. */
  function CopyResult(p: Progress, c: Copy): Progress {
    var merged := WithHash(p.db, c.h, c.kEntropy, c.blockLabel, c.f, c.subCount);
    if (c.id, c.f) in p.processed then p.(db := merged)
    else Progress(WithNames(WithData(merged, c.f, c.info), c.f, c.names), p.processed + {(c.id, c.f)},
      p.writes + multiset{c.f})
  }

  /** Seals a fact, so that a proof opens it only where it names Seal. */
  datatype Seal = Seal

  ghost predicate IsCopyResult(seal: Seal, p: Progress, c: Copy, q: Progress) {
    q == CopyResult(p, c)
  }

  ghost predicate Sealed(p: Progress, c: Copy, q: Progress) {
    forall seal :: IsCopyResult(seal, p, c, q)
  }

  lemma SomeCopyResult(p: Progress, c: Copy)
    ensures exists q :: Sealed(p, c, q)
  {
    assert Sealed(p, c, CopyResult(p, c));
  }

  /** CopyResult under its seal. */
  ghost function AfterCopy(p: Progress, c: Copy): Progress {
    SomeCopyResult(p, c);
    var q :| Sealed(p, c, q);
    q
  }

  lemma OpenCopy(p: Progress, c: Copy)
    ensures AfterCopy(p, c) == CopyResult(p, c)
  {
    assert IsCopyResult(Seal, p, c, AfterCopy(p, c));
  }

  ghost function AfterCopies(start: Db, copies: seq<Copy>, n: nat): Progress
    requires n <= |copies|
  {
    if n == 0 then Progress(start, {}, multiset{}) else AfterCopy(AfterCopies(start, copies, n - 1), copies[n - 1])
  }

  lemma WithMoreNames(db: Db, f: ByteString, names: set<Name>, name: Name)
    ensures WithNames(WithNames(db, f, names), f, {name}) == WithNames(db, f, names + {name})
  {
    if names == {} {
      assert names + {name} == {name};
    } else {
      var was := WithNames(db, f, names);
      assert was.Names(f) + {name} == db.Names(f) + (names + {name});
      assert was.names[f := was.Names(f) + {name}] == db.names[f := db.Names(f) + (names + {name})];
    }
  }

  /** The copies made the database what it is. */
  ghost predicate Made(seal: Seal, start: Db, log: seq<Copy>, db: Db, writes: multiset<ByteString>) {
    AfterCopies(start, log, |log|).db == db && AfterCopies(start, log, |log|).writes == writes
  }

  /** Whether an adder has processed a source, followed through the copies. */
  ghost predicate CitedBy(copies: seq<Copy>, n: nat, id: nat, f: ByteString)
    requires n <= |copies|
  {
    n > 0 && ((copies[n - 1].id == id && copies[n - 1].f == f) || CitedBy(copies, n - 1, id, f))
  }

  /** The destination of a set operation. */
  class ImportDb {
    ghost const start: Db
    var db: Db
    ghost var dataWrites: multiset<ByteString>
    var log: seq<Copy>

    /** The database is what the copies so far made of it. */
    ghost predicate Valid()
      reads this
    {
      forall seal :: Made(seal, start, log, db, dataWrites)
    }

    constructor (db: Db)
      ensures Valid() && start == this.db == db && log == []
    {
      start, this.db := db, db;
      dataWrites, log := multiset{}, [];
    }

    method MergeHash(h: ByteString, kEntropy: nat, blockLabel: ByteString, f: ByteString, subCount: nat)
      modifies this`db
      ensures db == if h == [] || f == [] then old(db) else WithHash(old(db), h, kEntropy, blockLabel, f, subCount)
    {
      if |h| == 0 || |f| == 0 {
        return;
      }
      db := WithHash(db, h, kEntropy, blockLabel, f, subCount);
    }

    method InsertSourceData(f: ByteString, info: Info)
      modifies this`db, this`dataWrites
      ensures db == if f == [] then old(db) else WithData(old(db), f, info)
      ensures dataWrites == old(dataWrites) + (if f == [] then multiset{} else multiset{f})
    {
      if |f| == 0 {
        return;
      }
      db := WithData(db, f, info);
      dataWrites := dataWrites + multiset{f};
    }

    method InsertSourceName(f: ByteString, name: Name)
      modifies this`db
      ensures db == if f == [] then old(db) else WithNames(old(db), f, {name})
    {
      if |f| == 0 {
        return;
      }
      db := WithNames(db, f, {name});
    }

    /** add_source_names: one insert per name. */
    method InsertSourceNames(f: ByteString, names: set<Name>)
      requires f != []
      modifies this`db
      ensures db == WithNames(old(db), f, names)
    {
      var left := names;
      ghost var was, done: set<Name> := db, {};
      while left != {}
        invariant left == names - done && done <= names
        invariant db == WithNames(was, f, done)
        decreases left
      {
        var name :| name in left;
        WithMoreNames(was, f, done, name);
        InsertSourceName(f, name);
        left, done := left - {name}, done + {name};
      }
      assert done == names;
    }
  }

  // ---------- one adder's copying ----------

  /** What an adder knows of the sources it copies. */
  datatype Catalog = Catalog(data: map<ByteString, Info>, names: map<ByteString, set<Name>>, strict: bool)
  {
    /** Every adder aborts on a source without data, a strict one on a source without a name
        as well. */
    ghost predicate Covers(fs: set<ByteString>) {
      forall f :: f in fs ==> f != [] && f in data && f in names && (strict ==> names[f] != {})
    }
  }

  /** The copy of source f of hash h with entry e. */
  function CopyOf(id: nat, h: ByteString, e: HashData, f: ByteString, subCount: nat, cat: Catalog): Copy
    requires f in cat.data && f in cat.names
  {
    Copy(id, h, e.kEntropy, e.blockLabel, f, subCount, cat.data[f], cat.names[f])
  }

  ghost predicate Cites(copies: seq<Copy>, f: ByteString) {
    exists i :: 0 <= i < |copies| && copies[i].f == f
  }

  /** The copies of exactly the chosen sources of one hash, less those to be skipped. */
  ghost predicate CopiesOf(copies: seq<Copy>, id: nat, h: ByteString, e: HashData, chosen: map<ByteString, nat>,
                           cat: Catalog, skip: set<ByteString>)
  {
    && (forall i :: 0 <= i < |copies| ==> IsChosen(copies[i], id, h, e, chosen, cat, skip))
    && (forall f :: f in chosen && f !in skip ==> Cites(copies, f))
  }

  ghost predicate IsChosen(c: Copy, id: nat, h: ByteString, e: HashData, chosen: map<ByteString, nat>, cat: Catalog,
                           skip: set<ByteString>)
  {
    c.f in chosen && c.f !in skip && c.f in cat.data && c.f in cat.names && c == CopyOf(id, h, e, c.f, chosen[c.f], cat)
  }

  lemma OneMoreChosen(copies: seq<Copy>, id: nat, h: ByteString, e: HashData, chosen: map<ByteString, nat>,
                      cat: Catalog, skip: set<ByteString>, left: set<ByteString>, f: ByteString)
    requires CopiesOf(copies, id, h, e, chosen, cat, skip + left) && cat.Covers({f})
    requires f in left && f in chosen && f !in skip
    ensures CopiesOf(copies + [CopyOf(id, h, e, f, chosen[f], cat)], id, h, e, chosen, cat, skip + (left - {f}))
  {
    var added := copies + [CopyOf(id, h, e, f, chosen[f], cat)];
    forall i | 0 <= i < |added|
      ensures IsChosen(added[i], id, h, e, chosen, cat, skip + (left - {f}))
    {
      assert i < |copies| ==> IsChosen(copies[i], id, h, e, chosen, cat, skip + left);
    }
    forall g | g in chosen && g !in skip + (left - {f})
      ensures Cites(added, g)
    {
      if g == f {
        assert added[|copies|].f == g;
      } else {
        var i :| 0 <= i < |copies| && copies[i].f == g;
        assert added[i].f == g;
      }
    }
  }

  class Copier {
    const id: nat
    const dest: ImportDb
    const preexisting: set<ByteString>
    var processed: set<ByteString>

    ghost predicate Valid()
      reads this, dest
    {
      dest.Valid() && forall f :: f in processed <==> CitedBy(dest.log, |dest.log|, id, f)
    }

    /** Sources that the destination has at the start are left alone. */
    constructor (id: nat, dest: ImportDb)
      requires dest.Valid() && forall f :: !CitedBy(dest.log, |dest.log|, id, f)
      ensures Valid() && this.id == id && this.dest == dest && preexisting == dest.db.data.Keys
    {
      this.id, this.dest := id, dest;
      preexisting := dest.db.data.Keys;
      processed := {};
    }

    /** The calls made for one source of one hash. */
    method CopySource(h: ByteString, e: HashData, f: ByteString, subCount: nat, cat: Catalog)
      requires Valid() && h != [] && cat.Covers({f})
      modifies this`processed, dest
      ensures Valid() && dest.log == old(dest.log) + [CopyOf(id, h, e, f, subCount, cat)]
      ensures processed == old(processed) + {f}
    {
      var c := CopyOf(id, h, e, f, subCount, cat);
      ghost var before, db, writes := dest.log, dest.db, dest.dataWrites;
      ghost var known := f in processed;
      dest.MergeHash(h, e.kEntropy, e.blockLabel, f, subCount);
      if f !in processed {
        dest.InsertSourceData(f, cat.data[f]);
        dest.InsertSourceNames(f, cat.names[f]);
        processed := processed + {f};
      }
      CopyMade(dest.start, before, db, writes, c, dest.db, dest.dataWrites);
      forall g {
        CitedMore(before, c, id, g);
      }
      dest.log := dest.log + [c];
    }

    /** The loop over the sources of one hash; sources known at the start are skipped. */
    method CopyAll(h: ByteString, e: HashData, chosen: map<ByteString, nat>, cat: Catalog)
      returns (ghost added: seq<Copy>)
      requires Valid() && h != [] && cat.Covers(chosen.Keys - preexisting)
      modifies this`processed, dest
      ensures Valid() && dest.log == old(dest.log) + added
      ensures CopiesOf(added, id, h, e, chosen, cat, preexisting)
    {
      var left := chosen.Keys;
      added := [];
      while left != {}
        invariant Valid() && dest.log == old(dest.log) + added && left <= chosen.Keys
        invariant CopiesOf(added, id, h, e, chosen, cat, preexisting + left)
        decreases left
      {
        var f :| f in left;
        if f in preexisting {
          assert preexisting + left == preexisting + (left - {f});
        } else {
          assert f in chosen.Keys - preexisting;
          OneMoreChosen(added, id, h, e, chosen, cat, preexisting, left, f);
          CopySource(h, e, f, chosen[f], cat);
          added := added + [CopyOf(id, h, e, f, chosen[f], cat)];
        }
        left := left - {f};
      }
      assert preexisting + {} == preexisting;
    }
  }

  /** The calls made for a source, put together. */
  lemma CopyMade(start: Db, log: seq<Copy>, was: Db, writesWas: multiset<ByteString>, c: Copy, db: Db,
                 writes: multiset<ByteString>)
    requires forall seal :: Made(seal, start, log, was, writesWas)
    requires var merged := WithHash(was, c.h, c.kEntropy, c.blockLabel, c.f, c.subCount);
             db == if CitedBy(log, |log|, c.id, c.f) then merged
                   else WithNames(WithData(merged, c.f, c.info), c.f, c.names)
    requires writes == if CitedBy(log, |log|, c.id, c.f) then writesWas else writesWas + multiset{c.f}
    ensures forall seal :: Made(seal, start, log + [c], db, writes)
  {
    assert Made(Seal, start, log, was, writesWas);
    LogExtended(start, log, c);
    OpenCopy(AfterCopies(start, log, |log|), c);
    ProcessedByCopies(start, log, |log|, c.id, c.f);
  }

  lemma CitedMore(copies: seq<Copy>, c: Copy, id: nat, f: ByteString)
    ensures CitedBy(copies + [c], |copies| + 1, id, f) <==> (c.id == id && c.f == f) || CitedBy(copies, |copies|, id, f)
  {
    CitedPrefix(copies, [c], |copies|, id, f);
  }

  lemma {:induction false} CitedPrefix(a: seq<Copy>, b: seq<Copy>, n: nat, id: nat, f: ByteString)
    requires n <= |a|
    ensures CitedBy(a + b, n, id, f) <==> CitedBy(a, n, id, f)
  {
    if n == 0 {
    } else {
      CitedPrefix(a, b, n - 1, id, f);
    }
  }

  lemma LogExtended(start: Db, copies: seq<Copy>, c: Copy)
    ensures AfterCopies(start, copies + [c], |copies| + 1) == AfterCopy(AfterCopies(start, copies, |copies|), c)
  {
    CopiesPrefix(start, copies, [c], |copies|);
  }

  lemma {:induction false} CopiesPrefix(start: Db, a: seq<Copy>, b: seq<Copy>, n: nat)
    requires n <= |a|
    ensures AfterCopies(start, a + b, n) == AfterCopies(start, a, n)
  {
    if n == 0 {
    } else {
      CopiesPrefix(start, a, b, n - 1);
      SameCopy(AfterCopies(start, a + b, n - 1), AfterCopies(start, a, n - 1), (a + b)[n - 1], a[n - 1]);
    }
  }

  lemma SameCopy(p: Progress, q: Progress, c: Copy, d: Copy)
    requires p == q && c == d
    ensures AfterCopy(p, c) == AfterCopy(q, d)
  {
  }

  // ---------- what a sequence of copies amounts to ----------

  /** The sub-count of source f for hash h, followed through the copies. */
  function SubOf(start: Db, copies: seq<Copy>, n: nat, h: ByteString, f: ByteString): Option<nat>
    requires n <= |copies|
  {
    if n == 0 then Lookup(start.Subs(h), f) else
      var was := SubOf(start, copies, n - 1, h, f);
      if was.None? && copies[n - 1].h == h && copies[n - 1].f == f then Some(Clip2(copies[n - 1].subCount)) else was
  }

  lemma SubAfterCopy(p: Progress, c: Copy, h: ByteString, f: ByteString)
    ensures var was := Lookup(p.db.Subs(h), f);
            Lookup(AfterCopy(p, c).db.Subs(h), f)
            == if was.None? && c.h == h && c.f == f then Some(Clip2(c.subCount)) else was
  {
    OpenCopy(p, c);
  }

  lemma {:induction false} SubIsFollowed(start: Db, copies: seq<Copy>, n: nat, h: ByteString, f: ByteString)
    requires n <= |copies|
    ensures Lookup(AfterCopies(start, copies, n).db.Subs(h), f) == SubOf(start, copies, n, h, f)
  {
    if n == 0 {
    } else {
      SubIsFollowed(start, copies, n - 1, h, f);
      SubAfterCopy(AfterCopies(start, copies, n - 1), copies[n - 1], h, f);
    }
  }

  ghost predicate CitesFor(copies: seq<Copy>, n: nat, h: ByteString, f: ByteString)
    requires n <= |copies|
  {
    exists i :: 0 <= i < n && copies[i].h == h && copies[i].f == f
  }

  /** A hash has the sources it had and those copied for it. The sub-count is the one on
      record before, or one that was copied, clipped; where all agree it is that one. */
  lemma {:induction false} SubsOfCopies(start: Db, copies: seq<Copy>, n: nat, h: ByteString, f: ByteString)
    requires n <= |copies|
    ensures var was, now := Lookup(start.Subs(h), f), SubOf(start, copies, n, h, f);
            && (now.Some? <==> was.Some? || CitesFor(copies, n, h, f))
            && (was.Some? ==> now == was)
            && (was.None? && now.Some? ==>
                  exists i :: 0 <= i < n && copies[i].h == h && copies[i].f == f
                    && now.value == Clip2(copies[i].subCount))
  {
    if n == 0 {
    } else {
      SubsOfCopies(start, copies, n - 1, h, f);
    }
  }

  /** Where there was none, the first copy of a source for a hash gives the sub-count. */
  lemma {:induction false} SubIsFirst(start: Db, copies: seq<Copy>, n: nat, h: ByteString, f: ByteString)
    returns (i: nat)
    requires n <= |copies| && f !in start.Subs(h) && CitesFor(copies, n, h, f)
    ensures i < n && copies[i].h == h && copies[i].f == f && !CitesFor(copies, i, h, f)
    ensures SubOf(start, copies, n, h, f) == Some(Clip2(copies[i].subCount))
  {
    SubsOfCopies(start, copies, n - 1, h, f);
    if CitesFor(copies, n - 1, h, f) {
      i := SubIsFirst(start, copies, n - 1, h, f);
    } else {
      i := n - 1;
    }
  }

  lemma ProcessedAfterCopy(p: Progress, c: Copy, id: nat, f: ByteString)
    ensures (id, f) in AfterCopy(p, c).processed <==> (id, f) in p.processed || (c.id == id && c.f == f)
  {
    OpenCopy(p, c);
  }

  lemma {:induction false} ProcessedByCopies(start: Db, copies: seq<Copy>, n: nat, id: nat, f: ByteString)
    requires n <= |copies|
    ensures (id, f) in AfterCopies(start, copies, n).processed <==> CitedBy(copies, n, id, f)
  {
    if n == 0 {
    } else {
      ProcessedByCopies(start, copies, n - 1, id, f);
      ProcessedAfterCopy(AfterCopies(start, copies, n - 1), copies[n - 1], id, f);
    }
  }

  /** The data of a source, followed through the copies. */
  ghost function DataOf(start: Db, copies: seq<Copy>, n: nat, f: ByteString): Option<Info>
    requires n <= |copies|
  {
    if n == 0 then Lookup(start.data, f) else
      var was, c := DataOf(start, copies, n - 1, f), copies[n - 1];
      if c.f != f then was else if !CitedBy(copies, n - 1, c.id, f) then Some(c.info)
      else if was.Some? then was else Some(BLANK)
  }

  lemma DataAfterCopy(p: Progress, c: Copy, f: ByteString)
    ensures var was := Lookup(p.db.data, f);
            Lookup(AfterCopy(p, c).db.data, f)
            == if c.f != f then was else if (c.id, f) !in p.processed then Some(c.info)
               else if was.Some? then was else Some(BLANK)
  {
    OpenCopy(p, c);
  }

  lemma DataStep(start: Db, copies: seq<Copy>, n: nat, f: ByteString)
    requires 0 < n <= |copies|
             && Lookup(AfterCopies(start, copies, n - 1).db.data, f) == DataOf(start, copies, n - 1, f)
    ensures Lookup(AfterCopies(start, copies, n).db.data, f) == DataOf(start, copies, n, f)
  {
    ProcessedByCopies(start, copies, n - 1, copies[n - 1].id, f);
    DataAfterCopy(AfterCopies(start, copies, n - 1), copies[n - 1], f);
  }

  lemma {:induction false} DataIsFollowed(start: Db, copies: seq<Copy>, n: nat, f: ByteString)
    requires n <= |copies|
    ensures Lookup(AfterCopies(start, copies, n).db.data, f) == DataOf(start, copies, n, f)
  {
    if n == 0 {
    } else {
      DataIsFollowed(start, copies, n - 1, f);
      DataStep(start, copies, n, f);
    }
  }

  ghost predicate CitesSource(copies: seq<Copy>, n: nat, f: ByteString)
    requires n <= |copies|
  {
    n > 0 && (copies[n - 1].f == f || CitesSource(copies, n - 1, f))
  }

  lemma {:induction false} CitedBySome(copies: seq<Copy>, n: nat, id: nat, f: ByteString)
    requires n <= |copies| && CitedBy(copies, n, id, f)
    ensures CitesSource(copies, n, f)
  {
    if copies[n - 1].f == f {
    } else {
      CitedBySome(copies, n - 1, id, f);
    }
  }

  ghost predicate SomeInfo(copies: seq<Copy>, n: nat, f: ByteString, info: Info)
    requires n <= |copies|
  {
    n > 0 && ((copies[n - 1].f == f && copies[n - 1].info == info) || SomeInfo(copies, n - 1, f, info))
  }

  lemma {:induction false} CitedSomewhere(copies: seq<Copy>, n: nat, f: ByteString)
    requires n <= |copies|
    ensures CitesSource(copies, n, f) <==> exists i :: 0 <= i < n && copies[i].f == f
  {
    if n == 0 {
    } else {
      CitedSomewhere(copies, n - 1, f);
    }
  }

  lemma {:induction false} InfoSomewhere(copies: seq<Copy>, n: nat, f: ByteString, info: Info)
    requires n <= |copies| && SomeInfo(copies, n, f, info)
    ensures exists i :: 0 <= i < n && copies[i].f == f && copies[i].info == info
  {
    if copies[n - 1].f == f && copies[n - 1].info == info {
    } else {
      InfoSomewhere(copies, n - 1, f, info);
    }
  }

  /** The data of a source that was copied is what some adder read; other data stays. */
  lemma {:induction false} DataOfCopies(start: Db, copies: seq<Copy>, n: nat, f: ByteString)
    requires n <= |copies|
    ensures var was, now := Lookup(start.data, f), DataOf(start, copies, n, f);
            && (CitesSource(copies, n, f) ==> now.Some? && SomeInfo(copies, n, f, now.value))
            && (!CitesSource(copies, n, f) ==> now == was)
  {
    if n == 0 {
    } else {
      DataOfCopies(start, copies, n - 1, f);
      if copies[n - 1].f == f && CitedBy(copies, n - 1, copies[n - 1].id, f) {
        CitedBySome(copies, n - 1, copies[n - 1].id, f);
      }
    }
  }

  ghost predicate NameOf(start: Db, copies: seq<Copy>, n: nat, f: ByteString, name: Name)
    requires n <= |copies|
  {
    if n == 0 then name in start.Names(f) else
      var c := copies[n - 1];
      NameOf(start, copies, n - 1, f, name) || (c.f == f && !CitedBy(copies, n - 1, c.id, f) && name in c.names)
  }

  /** The data of a copied source is what the last adder to meet it read at its first
      meeting. */
  lemma {:induction false} DataIsLastMet(start: Db, copies: seq<Copy>, n: nat, f: ByteString) returns (i: nat)
    requires n <= |copies| && CitesSource(copies, n, f)
    ensures i < n && copies[i].f == f && !CitedBy(copies, i, copies[i].id, f)
    ensures DataOf(start, copies, n, f) == Some(copies[i].info)
    ensures forall k :: i < k < n && copies[k].f == f ==> CitedBy(copies, k, copies[k].id, f)
  {
    var c := copies[n - 1];
    if c.f == f && !CitedBy(copies, n - 1, c.id, f) {
      i := n - 1;
    } else {
      if c.f == f {
        CitedBySome(copies, n - 1, c.id, f);
      }
      i := DataIsLastMet(start, copies, n - 1, f);
    }
  }

  lemma NamesAfterCopy(p: Progress, c: Copy, f: ByteString, name: Name)
    ensures name in AfterCopy(p, c).db.Names(f) <==>
              name in p.db.Names(f) || (c.f == f && (c.id, f) !in p.processed && name in c.names)
  {
    OpenCopy(p, c);
  }

  lemma NameStep(start: Db, copies: seq<Copy>, n: nat, f: ByteString, name: Name)
    requires 0 < n <= |copies|
    requires name in AfterCopies(start, copies, n - 1).db.Names(f) <==> NameOf(start, copies, n - 1, f, name)
    ensures name in AfterCopies(start, copies, n).db.Names(f) <==> NameOf(start, copies, n, f, name)
  {
    ProcessedByCopies(start, copies, n - 1, copies[n - 1].id, f);
    NamesAfterCopy(AfterCopies(start, copies, n - 1), copies[n - 1], f, name);
  }

  lemma {:induction false} NameIsFollowed(start: Db, copies: seq<Copy>, n: nat, f: ByteString, name: Name)
    requires n <= |copies|
    ensures name in AfterCopies(start, copies, n).db.Names(f) <==> NameOf(start, copies, n, f, name)
  {
    if n == 0 {
    } else {
      NameIsFollowed(start, copies, n - 1, f, name);
      NameStep(start, copies, n, f, name);
    }
  }

  /** What an adder says of a source does not change from copy to copy. */
  ghost predicate Consistent(copies: seq<Copy>) {
    forall i, j | 0 <= i < |copies| && 0 <= j < |copies| && copies[i].id == copies[j].id && copies[i].f == copies[j].f
      :: copies[i].info == copies[j].info && copies[i].names == copies[j].names
  }

  lemma {:induction false} CitedAt(copies: seq<Copy>, n: nat, id: nat, f: ByteString) returns (i: nat)
    requires n <= |copies| && CitedBy(copies, n, id, f)
    ensures i < n && copies[i].id == id && copies[i].f == f
  {
    if copies[n - 1].id == id && copies[n - 1].f == f {
      i := n - 1;
    } else {
      i := CitedAt(copies, n - 1, id, f);
    }
  }

  /** The names of a source are those it had and all that the copies of it carry. */
  lemma {:induction false} NamesOfCopies(start: Db, copies: seq<Copy>, n: nat, f: ByteString, name: Name)
    requires n <= |copies| && Consistent(copies)
    ensures NameOf(start, copies, n, f, name) <==>
              name in start.Names(f) || exists i :: 0 <= i < n && copies[i].f == f && name in copies[i].names
  {
    if n == 0 {
    } else {
      NamesOfCopies(start, copies, n - 1, f, name);
      var c := copies[n - 1];
      if c.f == f && CitedBy(copies, n - 1, c.id, f) {
        var i := CitedAt(copies, n - 1, c.id, f);
        assert copies[i].names == c.names;
      }
    }
  }

  ghost function WritesOf(copies: seq<Copy>, n: nat, f: ByteString): nat
    requires n <= |copies|
  {
    if n == 0 then 0 else
      var c := copies[n - 1];
      WritesOf(copies, n - 1, f) + (if c.f == f && !CitedBy(copies, n - 1, c.id, f) then 1 else 0)
  }

  lemma WritesAfterCopy(p: Progress, c: Copy, f: ByteString)
    ensures AfterCopy(p, c).writes[f] == p.writes[f] + (if c.f == f && (c.id, f) !in p.processed then 1 else 0)
  {
    OpenCopy(p, c);
  }

  lemma WriteStep(start: Db, copies: seq<Copy>, n: nat, f: ByteString)
    requires 0 < n <= |copies| && AfterCopies(start, copies, n - 1).writes[f] == WritesOf(copies, n - 1, f)
    ensures AfterCopies(start, copies, n).writes[f] == WritesOf(copies, n, f)
  {
    ProcessedByCopies(start, copies, n - 1, copies[n - 1].id, f);
    WritesAfterCopy(AfterCopies(start, copies, n - 1), copies[n - 1], f);
  }

  lemma {:induction false} WritesAreFollowed(start: Db, copies: seq<Copy>, n: nat, f: ByteString)
    requires n <= |copies|
    ensures AfterCopies(start, copies, n).writes[f] == WritesOf(copies, n, f)
  {
    if n == 0 {
    } else {
      WritesAreFollowed(start, copies, n - 1, f);
      WriteStep(start, copies, n, f);
    }
  }

  /** With one adder, each cited source's data is written exactly once, no other's. */
  lemma {:induction false} WrittenOnce(copies: seq<Copy>, n: nat, id: nat, f: ByteString)
    requires n <= |copies| && forall i :: 0 <= i < |copies| ==> copies[i].id == id
    ensures WritesOf(copies, n, f) == if CitesSource(copies, n, f) then 1 else 0
    ensures CitesSource(copies, n, f) <==> CitedBy(copies, n, id, f)
  {
    if n == 0 {
    } else {
      WrittenOnce(copies, n - 1, id, f);
    }
  }

  /** The entropy and label of a hash, followed through the copies. */
  function HeadOf(start: Db, copies: seq<Copy>, n: nat, h: ByteString): Option<(nat, ByteString)>
    requires n <= |copies|
  {
    if n == 0 then Head(start, h) else
      var was := HeadOf(start, copies, n - 1, h);
      if was.None? && copies[n - 1].h == h then
        Some((copies[n - 1].kEntropy, Truncate(copies[n - 1].blockLabel)))
      else was
  }

  function Head(db: Db, h: ByteString): Option<(nat, ByteString)> {
    if h in db.hashes then Some((db.hashes[h].kEntropy, db.hashes[h].blockLabel)) else None
  }

  lemma HeadAfterCopy(p: Progress, c: Copy, h: ByteString)
    ensures var was := Head(p.db, h);
            Head(AfterCopy(p, c).db, h)
            == if was.None? && c.h == h then Some((c.kEntropy, Truncate(c.blockLabel))) else was
  {
    OpenCopy(p, c);
  }

  /** The first copy for a hash that was not there fixes its entropy and label. */
  lemma {:induction false} HeadIsFollowed(start: Db, copies: seq<Copy>, n: nat, h: ByteString)
    requires n <= |copies|
    ensures Head(AfterCopies(start, copies, n).db, h) == HeadOf(start, copies, n, h)
  {
    if n == 0 {
    } else {
      HeadIsFollowed(start, copies, n - 1, h);
      HeadAfterCopy(AfterCopies(start, copies, n - 1), copies[n - 1], h);
    }
  }

  ghost predicate CitesHash(copies: seq<Copy>, n: nat, h: ByteString)
    requires n <= |copies|
  {
    exists i :: 0 <= i < n && copies[i].h == h
  }

  /** The head is the one on record, or that of the first copy for the hash. */
  lemma {:induction false} HeadIsFirst(start: Db, copies: seq<Copy>, n: nat, h: ByteString) returns (i: nat)
    requires n <= |copies|
    ensures h in start.hashes || !CitesHash(copies, n, h) ==> HeadOf(start, copies, n, h) == Head(start, h)
    ensures h !in start.hashes && CitesHash(copies, n, h) ==>
              && i < n && copies[i].h == h && !CitesHash(copies, i, h)
              && HeadOf(start, copies, n, h) == Some((copies[i].kEntropy, Truncate(copies[i].blockLabel)))
  {
    i := 0;
    if n == 0 {
    } else {
      i := HeadIsFirst(start, copies, n - 1, h);
      if h !in start.hashes && !CitesHash(copies, n - 1, h) {
        i := n - 1;
      }
    }
  }
}
