/** The commands that run an operation over every hash of A, and what they leave in the
    destination. */
module SetResults {
  import opened ByteStrings
  import opened HashDataRecords
  import opened HashDataModel
  import opened Sources
  import opened Databases
  import opened Copying
  import opened SetOperations

  ghost predicate CopyOk(c: Copy, op: Operation, a: ScanDb, b: ScanDb, skip: set<ByteString>) {
    c.h in a.db.hashes && IsChosen(c, 0, c.h, a.db.hashes[c.h], Chosen(op, a, b, c.h), CatalogOf(op, a, b), skip)
  }

  /** The copies are those of the sources chosen for the first n hashes of A. */
  ghost predicate LogOk(copies: seq<Copy>, op: Operation, a: ScanDb, b: ScanDb, skip: set<ByteString>, n: nat)
    requires n <= |a.keys|
  {
    && (forall i :: 0 <= i < |copies| ==> CopyOk(copies[i], op, a, b, skip))
    && (forall k, f :: 0 <= k < n && f in Chosen(op, a, b, a.keys[k]) && f !in skip ==>
      CitesFor(copies, |copies|, a.keys[k], f))
  }

  lemma LogMore(copies: seq<Copy>, added: seq<Copy>, op: Operation, a: ScanDb, b: ScanDb, skip: set<ByteString>, n: nat)
    requires n < |a.keys| && a.keys[n] in a.db.hashes && LogOk(copies, op, a, b, skip, n)
    requires CopiesOf(added, 0, a.keys[n], a.db.hashes[a.keys[n]], Chosen(op, a, b, a.keys[n]), CatalogOf(op, a, b),
             skip)
    ensures LogOk(copies + added, op, a, b, skip, n + 1)
  {
    var all := copies + added;
    forall i | 0 <= i < |all|
      ensures CopyOk(all[i], op, a, b, skip)
    {
      if i < |copies| {
        assert CopyOk(copies[i], op, a, b, skip);
      } else {
        var c := added[i - |copies|];
        assert IsChosen(c, 0, a.keys[n], a.db.hashes[a.keys[n]], Chosen(op, a, b, a.keys[n]), CatalogOf(op, a, b),
               skip);
      }
    }
    forall k, f | 0 <= k < n + 1 && f in Chosen(op, a, b, a.keys[k]) && f !in skip
      ensures CitesFor(all, |all|, a.keys[k], f)
    {
      if k < n {
        var i :| 0 <= i < |copies| && copies[i].h == a.keys[k] && copies[i].f == f;
        assert all[i].h == a.keys[k] && all[i].f == f;
      } else {
        var i :| 0 <= i < |added| && added[i].f == f;
        assert IsChosen(added[i], 0, a.keys[n], a.db.hashes[a.keys[n]], Chosen(op, a, b, a.keys[n]),
                        CatalogOf(op, a, b), skip);
        assert all[|copies| + i].h == a.keys[k] && all[|copies| + i].f == f;
      }
    }
  }

  predicate OnSets(op: Operation) {
    op.Intersect? || op.IntersectHash? || op.Subtract? || op.SubtractHash?
  }

  function RepositoryOf(op: Operation): ByteString {
    match op
    case Repository(r) => r
    case NonRepository(r) => r
    case _ => []
  }

  predicate ByRepository(op: Operation) {
    op.Repository? || op.NonRepository?
  }

  /** The commands on a repository need its name. */
  predicate Named(op: Operation) {
    ByRepository(op) ==> RepositoryOf(op) != []
  }

  /** add and add_range get through all hashes of A. */
  ghost predicate AllNamed(op: Operation, a: ScanDb, skip: set<ByteString>) {
    forall h :: NamedFor(op, a, h, skip)
  }

  method AdderStep(op: Operation, adder: Adder, h: ByteString) returns (ghost added: seq<Copy>)
    requires !OnSets(op) && Named(op) && adder.Valid() && adder.a.Found(h)
    requires NamedFor(op, adder.a, h, adder.copier.preexisting)
    requires ByRepository(op) ==> adder.Classified() && adder.repositoryName == RepositoryOf(op)
    modifies adder`repositorySources, adder`nonRepositorySources, adder.copier`processed, adder.copier.dest
    ensures adder.Valid() && adder.copier.dest.log == old(adder.copier.dest.log) + added
    ensures ByRepository(op) ==> adder.Classified()
    ensures CopiesOf(added, adder.copier.id, h, adder.a.db.hashes[h], Chosen(op, adder.a, adder.a, h),
                     CatalogOf(op, adder.a, adder.a), adder.copier.preexisting)
  {
    match op {
      case Add => added := adder.AddHash(h);
      case AddRange(m, n) => added := adder.AddHashInRange(h, m, n);
      case Repository(r) => added := adder.AddHashByRepository(h, true);
      case NonRepository(r) => added := adder.AddHashByRepository(h, false);
      case _ => assert false;
    }
  }

  method AdderSetStep(op: Operation, adderSet: AdderSet, h: ByteString) returns (ghost added: seq<Copy>)
    requires OnSets(op) && adderSet.Valid() && adderSet.a.Found(h)
    modifies adderSet.copier`processed, adderSet.copier.dest
    ensures adderSet.Valid() && adderSet.copier.dest.log == old(adderSet.copier.dest.log) + added
    ensures adderSet.Copied(op, h, added)
  {
    match op {
      case Intersect => added := adderSet.IntersectSources(h);
      case IntersectHash => added := adderSet.IntersectHashes(h);
      case Subtract => added := adderSet.SubtractSources(h);
      case SubtractHash => added := adderSet.SubtractHashes(h);
      case _ => assert false;
    }
  }

  /** What next_hash has come to after n hashes. */
  function KeyAt(a: ScanDb, n: nat): ByteString {
    if n < |a.keys| then a.keys[n] else []
  }

  lemma KeyNotEmpty(a: ScanDb, n: nat)
    requires a.Valid() && n < |a.keys|
    ensures a.keys[n] != [] && a.keys[n] in a.db.hashes
  {
    assert a.Sound(Listed) && a.Sound(Sourced) && a.HashOk(a.keys[n]);
  }

  lemma KeysNotEmpty(a: ScanDb, n: nat)
    requires a.Valid() && n <= |a.keys|
    ensures KeyAt(a, n) == [] <==> n == |a.keys|
  {
    if n < |a.keys| {
      KeyNotEmpty(a, n);
    }
  }

  /** The add commands have done the first n hashes. */
  ghost predicate AdderAt(op: Operation, adder: Adder, n: nat)
    reads adder, adder.copier, adder.copier.dest
  {
    && adder.Valid() && (ByRepository(op) ==> adder.Classified()) && n <= |adder.a.keys|
    && AllNamed(op, adder.a, adder.copier.preexisting)
    && LogOk(adder.copier.dest.log, op, adder.a, adder.a, adder.copier.preexisting, n)
  }

  method AdderNext(op: Operation, adder: Adder, h: ByteString, ghost n: nat)
    requires !OnSets(op) && Named(op) && adder.copier.id == 0
    requires ByRepository(op) ==> adder.repositoryName == RepositoryOf(op)
    requires AdderAt(op, adder, n) && n < |adder.a.keys| && adder.a.keys[n] == h && adder.a.Found(h)
    modifies adder`repositorySources, adder`nonRepositorySources, adder.copier`processed, adder.copier.dest
    ensures AdderAt(op, adder, n + 1)
  {
    ghost var log := adder.copier.dest.log;
    ghost var added := AdderStep(op, adder, h);
    LogMore(log, added, op, adder.a, adder.a, adder.copier.preexisting, n);
  }

  /** From first_hash on through next_hash. */
  method AdderLoop(op: Operation, adder: Adder)
    requires !OnSets(op) && Named(op) && adder.copier.id == 0
    requires ByRepository(op) ==> adder.repositoryName == RepositoryOf(op)
    requires AdderAt(op, adder, 0) && adder.a.hidden == {}
    modifies adder`repositorySources, adder`nonRepositorySources, adder.copier`processed, adder.copier.dest
    ensures AdderAt(op, adder, |adder.a.keys|)
  {
    var h := adder.a.FirstHash();
    ghost var n := 0;
    while h != []
      invariant AdderAt(op, adder, n) && h == KeyAt(adder.a, n)
      decreases |adder.a.keys| - n
    {
      KeyNotEmpty(adder.a, n);
      AdderNext(op, adder, h, n);
      h := adder.a.NextHash(h, n);
      n := n + 1;
    }
    KeysNotEmpty(adder.a, n);
  }

  ghost predicate AdderSetAt(op: Operation, adderSet: AdderSet, n: nat)
    reads adderSet, adderSet.copier, adderSet.copier.dest
  {
    && adderSet.Valid() && n <= |adderSet.a.keys|
    && LogOk(adderSet.copier.dest.log, op, adderSet.a, adderSet.b, adderSet.copier.preexisting, n)
  }

  method AdderSetNext(op: Operation, adderSet: AdderSet, h: ByteString, ghost n: nat)
    requires OnSets(op) && adderSet.copier.id == 0
    requires AdderSetAt(op, adderSet, n) && n < |adderSet.a.keys| && adderSet.a.keys[n] == h && adderSet.a.Found(h)
    modifies adderSet.copier`processed, adderSet.copier.dest
    ensures AdderSetAt(op, adderSet, n + 1)
  {
    ghost var log := adderSet.copier.dest.log;
    ghost var added := AdderSetStep(op, adderSet, h);
    LogMore(log, added, op, adderSet.a, adderSet.b, adderSet.copier.preexisting, n);
  }

  /** The loop of the set commands. */
  method AdderSetLoop(op: Operation, adderSet: AdderSet)
    requires OnSets(op) && adderSet.copier.id == 0 && AdderSetAt(op, adderSet, 0) && adderSet.a.hidden == {}
    modifies adderSet.copier`processed, adderSet.copier.dest
    ensures AdderSetAt(op, adderSet, |adderSet.a.keys|)
  {
    var h := adderSet.a.FirstHash();
    ghost var n := 0;
    while h != []
      invariant AdderSetAt(op, adderSet, n) && h == KeyAt(adderSet.a, n)
      decreases |adderSet.a.keys| - n
    {
      KeyNotEmpty(adderSet.a, n);
      AdderSetNext(op, adderSet, h, n);
      h := adderSet.a.NextHash(h, n);
      n := n + 1;
    }
    KeysNotEmpty(adderSet.a, n);
  }

  /** A whole command, from the destination it opens to the end of its loop. */
  method RunCommand(op: Operation, a: ScanDb, b: ScanDb, dest: ImportDb)
    requires Named(op) && a.Valid() && b.Valid() && a.hidden == {} && dest.Valid() && dest.log == []
    requires AllNamed(op, a, dest.db.data.Keys)
    modifies dest
    ensures dest.Valid() && LogOk(dest.log, op, a, if OnSets(op) then b else a, old(dest.db.data.Keys), |a.keys|)
  {
    var copier := new Copier(0, dest);
    if OnSets(op) {
      var adderSet := new AdderSet(a, b, copier);
      AdderSetLoop(op, adderSet);
    } else {
      var adder := new Adder(a, RepositoryOf(op), copier);
      AdderLoop(op, adder);
    }
  }

  // ---------- what a command leaves ----------

  /** A database in which every cited source has a record. */
  ghost predicate WellCited(db: Db) {
    forall h, f :: f in db.Subs(h) ==> f in db.data
  }

  /** Source f of hash h is one that the command copies. */
  ghost predicate Takes(op: Operation, a: ScanDb, b: ScanDb, start: Db, h: ByteString, f: ByteString) {
    h in a.db.hashes && f in Chosen(op, a, b, h) && f !in start.data
  }

  lemma TakenIsCopied(op: Operation, a: ScanDb, b: ScanDb, start: Db, copies: seq<Copy>, h: ByteString, f: ByteString)
    requires a.Valid() && LogOk(copies, op, a, b, start.data.Keys, |a.keys|)
    ensures Takes(op, a, b, start, h, f) <==> CitesFor(copies, |copies|, h, f)
  {
    if Takes(op, a, b, start, h, f) {
      assert a.Sound(Listed);
      var k :| 0 <= k < |a.keys| && a.keys[k] == h;
    }
    if CitesFor(copies, |copies|, h, f) {
      var i :| 0 <= i < |copies| && copies[i].h == h && copies[i].f == f;
      assert CopyOk(copies[i], op, a, b, start.data.Keys);
    }
  }

  /** The (hash, source) pairs of the destination are the old ones and the chosen ones of
      sources that it did not know, the latter with the chosen sub-counts. */
  lemma PairsOfCommand(op: Operation, a: ScanDb, b: ScanDb, start: Db, copies: seq<Copy>, h: ByteString, f: ByteString)
    requires a.Valid() && b.Valid() && WellCited(start) && LogOk(copies, op, a, b, start.data.Keys, |a.keys|)
    ensures Lookup(AfterCopies(start, copies, |copies|).db.Subs(h), f)
            == if Takes(op, a, b, start, h, f) then Some(Chosen(op, a, b, h)[f]) else Lookup(start.Subs(h), f)
  {
    SubIsFollowed(start, copies, |copies|, h, f);
    SubsOfCopies(start, copies, |copies|, h, f);
    TakenIsCopied(op, a, b, start, copies, h, f);
    if Takes(op, a, b, start, h, f) {
      var i :| 0 <= i < |copies| && copies[i].h == h && copies[i].f == f
               && SubOf(start, copies, |copies|, h, f) == Some(Clip2(copies[i].subCount));
      assert CopyOk(copies[i], op, a, b, start.data.Keys);
      ChosenKnown(op, a, b, h, f);
    }
  }

  /** A hash that was there keeps its entropy and label; a new one has A's. */
  lemma HeadsOfCommand(op: Operation, a: ScanDb, b: ScanDb, start: Db, copies: seq<Copy>, h: ByteString)
    requires a.Valid() && LogOk(copies, op, a, b, start.data.Keys, |a.keys|)
    ensures Head(AfterCopies(start, copies, |copies|).db, h)
            == if h in start.hashes || !exists f :: Takes(op, a, b, start, h, f) then Head(start, h) else Head(a.db, h)
  {
    var n := |copies|;
    HeadIsFollowed(start, copies, n, h);
    var i := HeadIsFirst(start, copies, n, h);
    TakenHashIsCited(op, a, b, start, copies, h);
    if h !in start.hashes && CitesHash(copies, n, h) {
      assert CopyOk(copies[i], op, a, b, start.data.Keys);
      ShortLabel(a, h);
    }
  }

  lemma TakenHashIsCited(op: Operation, a: ScanDb, b: ScanDb, start: Db, copies: seq<Copy>, h: ByteString)
    requires a.Valid() && LogOk(copies, op, a, b, start.data.Keys, |a.keys|)
    ensures (exists f :: Takes(op, a, b, start, h, f)) <==> CitesHash(copies, |copies|, h)
  {
    forall f
      ensures Takes(op, a, b, start, h, f) ==> CitesHash(copies, |copies|, h)
    {
      TakenIsCopied(op, a, b, start, copies, h, f);
    }
    if CitesHash(copies, |copies|, h) {
      var i :| 0 <= i < |copies| && copies[i].h == h;
      assert CopyOk(copies[i], op, a, b, start.data.Keys);
      assert Takes(op, a, b, start, h, copies[i].f);
    }
  }

  lemma ShortLabel(a: ScanDb, h: ByteString)
    requires a.Valid() && h in a.db.hashes
    ensures Truncate(a.db.hashes[h].blockLabel) == a.db.hashes[h].blockLabel
  {
    assert a.Sound(Sourced) && a.HashOk(h);
  }

  lemma TakenSourceIsCited(op: Operation, a: ScanDb, b: ScanDb, start: Db, copies: seq<Copy>, f: ByteString)
    requires a.Valid() && LogOk(copies, op, a, b, start.data.Keys, |a.keys|)
    ensures (exists h :: Takes(op, a, b, start, h, f)) <==> CitesSource(copies, |copies|, f)
  {
    CitedSomewhere(copies, |copies|, f);
    if h :| Takes(op, a, b, start, h, f) {
      TakenIsCopied(op, a, b, start, copies, h, f);
      var i :| 0 <= i < |copies| && copies[i].h == h && copies[i].f == f;
    }
    if CitesSource(copies, |copies|, f) {
      var i :| 0 <= i < |copies| && copies[i].f == f;
      assert CopyOk(copies[i], op, a, b, start.data.Keys);
      assert Takes(op, a, b, start, copies[i].h, f);
    }
  }

  /** A copied source's data is written exactly once, as A has it, or else B; no other data
      is touched. */
  lemma DataOfCommand(op: Operation, a: ScanDb, b: ScanDb, start: Db, copies: seq<Copy>, f: ByteString)
    requires a.Valid() && LogOk(copies, op, a, b, start.data.Keys, |a.keys|)
    ensures var p, cat := AfterCopies(start, copies, |copies|), CatalogOf(op, a, b);
            if exists h :: Takes(op, a, b, start, h, f) then
              && Lookup(p.db.data, f) == Lookup(cat.data, f) && f in cat.data && p.writes[f] == 1
              && Lookup(p.db.data, f) == Lookup(if f in a.db.data then a.db.data else b.db.data, f)
            else Lookup(p.db.data, f) == Lookup(start.data, f) && p.writes[f] == 0
  {
    var n := |copies|;
    TakenSourceIsCited(op, a, b, start, copies, f);
    DataIsFollowed(start, copies, n, f);
    DataOfCopies(start, copies, n, f);
    WritesAreFollowed(start, copies, n, f);
    forall i | 0 <= i < n
      ensures copies[i].id == 0
    {
      assert CopyOk(copies[i], op, a, b, start.data.Keys);
    }
    WrittenOnce(copies, n, 0, f);
    if CitesSource(copies, n, f) {
      var info := DataOf(start, copies, n, f).value;
      InfoSomewhere(copies, n, f, info);
      var i :| 0 <= i < n && copies[i].f == f && copies[i].info == info;
      assert CopyOk(copies[i], op, a, b, start.data.Keys);
    }
  }

  /** The names that a command gives a source: those of both databases, or of A alone, and of
      these only the ones of the repository, or of the others. */
  lemma NamesGiven(op: Operation, a: ScanDb, b: ScanDb, f: ByteString, name: Name)
    requires f in CatalogOf(op, a, b).names
    ensures name in CatalogOf(op, a, b).names[f] <==>
              if OnSets(op) then name in a.db.Names(f) || name in b.db.Names(f)
              else
                && name in a.db.Names(f) && (op.Repository? ==> name.repository == op.name)
                && (op.NonRepository? ==> name.repository != op.name)
  {
  }

  lemma CopiesConsistent(op: Operation, a: ScanDb, b: ScanDb, skip: set<ByteString>, copies: seq<Copy>)
    requires LogOk(copies, op, a, b, skip, |a.keys|)
    ensures Consistent(copies)
  {
    forall i, j | 0 <= i < |copies| && 0 <= j < |copies| && copies[i].f == copies[j].f
      ensures copies[i].info == copies[j].info && copies[i].names == copies[j].names
    {
      assert CopyOk(copies[i], op, a, b, skip) && CopyOk(copies[j], op, a, b, skip);
    }
  }

  /** A copied source gets all the names that the databases read give it, beside those
      it had; other names are not touched. */
  lemma NamesOfCommand(op: Operation, a: ScanDb, b: ScanDb, start: Db, copies: seq<Copy>, f: ByteString, name: Name)
    requires a.Valid() && LogOk(copies, op, a, b, start.data.Keys, |a.keys|)
    ensures name in AfterCopies(start, copies, |copies|).db.Names(f) <==>
              || name in start.Names(f)
              || ((exists h :: Takes(op, a, b, start, h, f)) && f in CatalogOf(op, a, b).names
                && name in CatalogOf(op, a, b).names[f])
  {
    var n := |copies|;
    TakenSourceIsCited(op, a, b, start, copies, f);
    CitedSomewhere(copies, n, f);
    NameIsFollowed(start, copies, n, f, name);
    CopiesConsistent(op, a, b, start.data.Keys, copies);
    NamesOfCopies(start, copies, n, f, name);
    forall i | 0 <= i < n && copies[i].f == f
      ensures f in CatalogOf(op, a, b).names && copies[i].names == CatalogOf(op, a, b).names[f]
    {
      assert CopyOk(copies[i], op, a, b, start.data.Keys);
    }
  }

  // ---------- splitting A ----------

  /** What the command leaves of a pair in a destination that was empty. */
  ghost function Left(op: Operation, a: ScanDb, b: ScanDb, h: ByteString, f: ByteString): Option<nat> {
    if h in a.db.hashes && f in Chosen(op, a, b, h) then Some(Chosen(op, a, b, h)[f]) else None
  }

  lemma LeftInEmpty(op: Operation, a: ScanDb, b: ScanDb, copies: seq<Copy>, h: ByteString, f: ByteString)
    requires a.Valid() && b.Valid() && LogOk(copies, op, a, b, {}, |a.keys|)
    ensures Lookup(AfterCopies(EMPTY, copies, |copies|).db.Subs(h), f) == Left(op, a, b, h, f)
  {
    assert EMPTY.data.Keys == {};
    PairsOfCommand(op, a, b, EMPTY, copies, h, f);
  }

  // What each command leaves of a pair, in plain terms. A hash is found in B when it is in B and
  // B's filter does not hide it.

  lemma AddLeaves(a: ScanDb, b: ScanDb, h: ByteString, f: ByteString)
    ensures Left(Add, a, b, h, f) == Lookup(a.db.Subs(h), f)
  {
  }

  /** A count of zero for the upper bound means none. */
  lemma AddRangeLeaves(m: nat, n: nat, a: ScanDb, b: ScanDb, h: ByteString, f: ByteString)
    ensures Left(AddRange(m, n), a, b, h, f).Some? <==>
              && h in a.db.hashes && f in a.db.hashes[h].subs
              && m <= a.db.hashes[h].Count() && (n > 0 ==> a.db.hashes[h].Count() <= n)
    ensures Left(AddRange(m, n), a, b, h, f).Some? ==>
              Left(AddRange(m, n), a, b, h, f).value == a.db.hashes[h].subs[f]
  {
  }

  lemma RepositoryLeaves(r: ByteString, a: ScanDb, b: ScanDb, h: ByteString, f: ByteString)
    ensures var inside := exists name :: name in a.db.Names(f) && name.repository == r;
            Left(Repository(r), a, b, h, f) == if inside then Lookup(a.db.Subs(h), f) else None
    ensures var outside := exists name :: name in a.db.Names(f) && name.repository != r;
            Left(NonRepository(r), a, b, h, f) == if outside then Lookup(a.db.Subs(h), f) else None
  {
    assert HasName(a, f, r, true) <==> exists name :: name in a.db.Names(f) && name.repository == r;
    assert HasName(a, f, r, false) <==> exists name :: name in a.db.Names(f) && name.repository != r;
  }

  lemma IntersectLeaves(a: ScanDb, b: ScanDb, h: ByteString, f: ByteString)
    ensures var common := h in b.db.hashes && h !in b.hidden && f in b.db.hashes[h].subs;
            && Left(Intersect, a, b, h, f) == (if common then Lookup(a.db.Subs(h), f) else None)
            && Left(Subtract, a, b, h, f) == (if common then None else Lookup(a.db.Subs(h), f))
  {
  }

  /** For a hash of A that B finds too, the sources of both, with A's sub-count where A has the
      source and B's where it has not; for any other hash nothing. */
  lemma IntersectHashLeaves(a: ScanDb, b: ScanDb, h: ByteString, f: ByteString)
    ensures Left(IntersectHash, a, b, h, f)
            == if h !in a.db.hashes || h !in b.db.hashes || h in b.hidden then None
               else if f in a.db.hashes[h].subs then Some(a.db.hashes[h].subs[f])
               else if f in b.db.hashes[h].subs then Some(b.db.hashes[h].subs[f])
               else None
  {
  }

  lemma SubtractHashLeaves(a: ScanDb, b: ScanDb, h: ByteString, f: ByteString)
    ensures Left(SubtractHash, a, b, h, f)
            == if h in b.db.hashes && b.db.hashes[h].Count() > 0 then None else Lookup(a.db.Subs(h), f)
  {
  }

  /** intersect and subtract split A's (hash, source, sub-count) triples in two disjoint
      parts that together are all of them, whatever B's filter hides. */
  lemma TriplesSplit(a: ScanDb, b: ScanDb, h: ByteString, f: ByteString)
    ensures var i, s := Left(Intersect, a, b, h, f), Left(Subtract, a, b, h, f);
            && (i.None? || s.None?)
            && (if i.Some? then i else s) == Lookup(a.db.Subs(h), f)
  {
  }

  ghost predicate HashLeft(op: Operation, a: ScanDb, b: ScanDb, h: ByteString) {
    exists f :: Left(op, a, b, h, f).Some?
  }

  /** intersect_hash and subtract_hash split A's hashes exactly when B finds just the
      hashes whose count it reports as positive: the one asks B for the hash, through
      the filter, and the other for the count. */
  lemma HashesSplitExactly(a: ScanDb, b: ScanDb)
    requires a.Valid() && b.Valid()
    ensures (forall h :: h in a.db.hashes ==> (HashLeft(IntersectHash, a, b, h) <==> !HashLeft(SubtractHash, a, b, h)))
            <==> (forall h :: h in a.db.hashes ==> (b.Found(h) <==> b.Count(h) > 0))
  {
    forall h | h in a.db.hashes
      ensures HashLeft(IntersectHash, a, b, h) <==> b.Found(h)
      ensures HashLeft(SubtractHash, a, b, h) <==> b.Count(h) == 0
    {
      SomeSource(a, h);
      var f :| f in a.db.Subs(h);
      assert b.Found(h) ==> Left(IntersectHash, a, b, h, f).Some?;
      assert b.Count(h) == 0 ==> Left(SubtractHash, a, b, h, f).Some?;
    }
  }

  /** They can part: with one hash in both, which B's filter hides, neither command copies
      it. */
  lemma HashesNotSplit(h: ByteString, f: ByteString)
    requires h != [] && f != []
    ensures var db := Db(map[h := HashData(0, [], 1, map[f := 1])], map[f := BLANK], map[]);
            var a, b := ScanDb(db, [h], {}), ScanDb(db, [h], {h});
            && a.Valid() && b.Valid() && h in a.db.hashes
            && !HashLeft(IntersectHash, a, b, h) && !HashLeft(SubtractHash, a, b, h)
  {
    var db := Db(map[h := HashData(0, [], 1, map[f := 1])], map[f := BLANK], map[]);
    var a, b := ScanDb(db, [h], {}), ScanDb(db, [h], {h});
    assert a.HashOk(h) && b.HashOk(h);
    assert b.Count(h) == 1;
  }

  lemma SomeSource(a: ScanDb, h: ByteString)
    requires a.Valid() && h in a.db.hashes
    ensures exists f :: f in a.db.Subs(h)
  {
    assert a.Sound(Sourced) && a.HashOk(h);
    assert a.db.Subs(h).Keys != {};
  }

  /** add_repository and subtract_repository together copy what has a name: such a source
      goes to the one, the other, or, with names of both kinds, to both. Neither copies a
      source without a name, and neither aborts on it. */
  lemma RepositoriesCover(a: ScanDb, r: ByteString, h: ByteString, f: ByteString)
    ensures var i, o := Left(Repository(r), a, a, h, f), Left(NonRepository(r), a, a, h, f);
            var all := Lookup(a.db.Subs(h), f);
            && (all.Some? && a.db.Names(f) != {} <==> i.Some? || o.Some?)
            && (i.Some? ==> i == all) && (o.Some? ==> o == all)
            && (i.Some? && o.Some? <==> all.Some? && HasName(a, f, r, true) && HasName(a, f, r, false))
  {
    if name :| f in a.db.Subs(h) && name in a.db.Names(f) {
      assert HasName(a, f, r, name.repository == r);
    }
  }

  /** Their names split: each name of a source is copied by exactly one of the two. */
  lemma NamesSplit(a: ScanDb, r: ByteString, f: ByteString, name: Name)
    requires f in a.db.data
    ensures var i, o := CatalogOf(Repository(r), a, a).names[f], CatalogOf(NonRepository(r), a, a).names[f];
            (name in a.db.Names(f) <==> name in i || name in o) && !(name in i && name in o)
  {
  }

  // ---------- end to end ----------

  /** A command run into a new database leaves exactly the chosen pairs. */
  method RunIntoNew(op: Operation, a: ScanDb, b: ScanDb) returns (dest: ImportDb)
    requires Named(op) && a.Valid() && b.Valid() && a.hidden == {} && AllNamed(op, a, {})
    ensures fresh(dest)
    ensures forall h, f :: Lookup(dest.db.Subs(h), f) == Left(op, a, if OnSets(op) then b else a, h, f)
  {
    dest := new ImportDb(EMPTY);
    assert EMPTY.data.Keys == {};
    ghost var start := dest.start;
    RunCommand(op, a, b, dest);
    assert dest.start == start;
    assert Made(Seal, dest.start, dest.log, dest.db, dest.dataWrites);
    forall h, f
      ensures Lookup(dest.db.Subs(h), f) == Left(op, a, if OnSets(op) then b else a, h, f)
    {
      LeftInEmpty(op, a, if OnSets(op) then b else a, dest.log, h, f);
    }
  }

  /** intersect_hash into a new database, in plain terms: of a hash that A has and B finds, the
      sources of both, with A's sub-counts before B's; of any other hash nothing. */
  method IntersectHashIntoNew(a: ScanDb, b: ScanDb) returns (dest: ImportDb)
    requires a.Valid() && b.Valid() && a.hidden == {}
    ensures fresh(dest)
    ensures forall h, f ::
              Lookup(dest.db.Subs(h), f)
              == if h !in a.db.hashes || h !in b.db.hashes || h in b.hidden then None
                 else if f in a.db.hashes[h].subs then Some(a.db.hashes[h].subs[f])
                 else if f in b.db.hashes[h].subs then Some(b.db.hashes[h].subs[f])
                 else None
  {
    dest := RunIntoNew(IntersectHash, a, b);
    forall h, f
      ensures Lookup(dest.db.Subs(h), f) == Left(IntersectHash, a, b, h, f)
    {
    }
    forall h, f
      ensures Lookup(dest.db.Subs(h), f)
              == if h !in a.db.hashes || h !in b.db.hashes || h in b.hidden then None
                 else if f in a.db.hashes[h].subs then Some(a.db.hashes[h].subs[f])
                 else if f in b.db.hashes[h].subs then Some(b.db.hashes[h].subs[f])
                 else None
    {
      IntersectHashLeaves(a, b, h, f);
    }
  }

  /** A intersected with B and A less B, run into two new databases, share no pair and
      together hold A's pairs with A's sub-counts. */
  method SplitByPairs(a: ScanDb, b: ScanDb) returns (common: ImportDb, rest: ImportDb)
    requires a.Valid() && b.Valid() && a.hidden == {}
    ensures forall h, f :: !(f in common.db.Subs(h) && f in rest.db.Subs(h))
    ensures forall h, f :: Lookup(a.db.Subs(h), f)
                           == if f in common.db.Subs(h) then Lookup(common.db.Subs(h), f) else Lookup(rest.db.Subs(h),
                             f)
  {
    common := RunIntoNew(Intersect, a, b);
    rest := RunIntoNew(Subtract, a, b);
    forall h, f
      ensures !(f in common.db.Subs(h) && f in rest.db.Subs(h))
      ensures Lookup(a.db.Subs(h), f)
              == if f in common.db.Subs(h) then Lookup(common.db.Subs(h), f) else Lookup(rest.db.Subs(h), f)
    {
      TriplesSplit(a, b, h, f);
      assert Lookup(common.db.Subs(h), f) == Left(Intersect, a, b, h, f);
      assert Lookup(rest.db.Subs(h), f) == Left(Subtract, a, b, h, f);
    }
  }
}
