/** adder_t and adder_set_t, and the commands that run them over a whole database. */
module SetOperations {
  import opened ByteStrings
  import opened HashDataRecords
  import opened HashDataModel
  import opened Sources
  import opened Databases
  import opened Copying

  datatype Operation =
    | Add
    | AddRange(m: nat, n: nat)
    | Repository(name: ByteString)
    | NonRepository(name: ByteString)
    | Intersect
    | IntersectHash
    | Subtract
    | SubtractHash

  ghost predicate HasName(a: ScanDb, f: ByteString, repository: ByteString, matching: bool) {
    exists name :: name in a.db.Names(f) && (name.repository == repository) == matching
  }

  /** The sources of a hash in A, with the sub-counts that the operation takes. */
  ghost function Chosen(op: Operation, a: ScanDb, b: ScanDb, h: ByteString): map<ByteString, nat> {
    var subs, others := a.db.Subs(h), b.FoundSubs(h);
    match op
    case Add => subs
    case AddRange(m, n) => if a.Count(h) >= m && (n == 0 || a.Count(h) <= n) then subs else map[]
    case Repository(r) => map f | f in subs && HasName(a, f, r, true) :: subs[f]
    case NonRepository(r) => map f | f in subs && HasName(a, f, r, false) :: subs[f]
    case Intersect => map f | f in subs && f in others :: subs[f]
    case IntersectHash => if b.Found(h) then others + subs else map[]
    case Subtract => subs - others.Keys
    case SubtractHash => if b.Count(h) == 0 then subs else map[]
  }

  function NamesWith(names: set<Name>, repository: ByteString, matching: bool): set<Name> {
    set name | name in names && (name.repository == repository) == matching
  }

  /** Where the operation reads source data and names. The operations of adder_t abort on a
      source that they copy and that has no name, those of adder_set_t do not. */
  function CatalogOf(op: Operation, a: ScanDb, b: ScanDb): Catalog {
    match op
    case Repository(r) => Catalog(a.db.data, map f | f in a.db.data :: NamesWith(a.db.Names(f), r, true), true)
    case NonRepository(r) =>
      Catalog(a.db.data, map f | f in a.db.data :: NamesWith(a.db.Names(f), r, false), true)
    case Intersect => Both(a.db, b.db)
    case IntersectHash => Both(a.db, b.db)
    case Subtract => Both(a.db, b.db)
    case SubtractHash => Both(a.db, b.db)
    case _ => Catalog(a.db.data, map f | f in a.db.data :: a.db.Names(f), true)
  }

  /** Data from A, else from B; names from both. */
  function Both(a: Db, b: Db): Catalog {
    Catalog(b.data + a.data, map f | f in a.data.Keys + b.data.Keys :: a.Names(f) + b.Names(f), false)
  }

  /** Whether add or add_range gets through the hash: each source that it copies has a
      name. The other operations do not ask for more than the choice of sources says. */
  ghost predicate NamedFor(op: Operation, a: ScanDb, h: ByteString, skip: set<ByteString>) {
    op.Add? || op.AddRange? ==> forall f :: f in Chosen(op, a, a, h) && f !in skip ==> a.db.Names(f) != {}
  }

  lemma SourceKnown(s: ScanDb, h: ByteString, f: ByteString)
    requires s.Valid() && f in s.db.Subs(h)
    ensures f != [] && f in s.db.data && s.db.Subs(h)[f] < 0x1_0000
  {
    assert s.Sound(Sourced) && s.HashOk(h);
  }

  /** A chosen source is one of A's, or with intersect_hash one of B's. */
  lemma ChosenFrom(op: Operation, a: ScanDb, b: ScanDb, h: ByteString, f: ByteString)
    requires f in Chosen(op, a, b, h)
    ensures var c := Chosen(op, a, b, h)[f];
            || (f in a.db.Subs(h) && c == a.db.Subs(h)[f])
            || (op.IntersectHash? && f in b.db.Subs(h) && c == b.db.Subs(h)[f])
  {
  }

  lemma ChosenKnown(op: Operation, a: ScanDb, b: ScanDb, h: ByteString, f: ByteString)
    requires a.Valid() && b.Valid() && f in Chosen(op, a, b, h)
    ensures f != [] && f in CatalogOf(op, a, b).data && f in CatalogOf(op, a, b).names
    ensures Chosen(op, a, b, h)[f] < 0x1_0000
  {
    ChosenFrom(op, a, b, h, f);
    if f in a.db.Subs(h) {
      SourceKnown(a, h, f);
    }
    if f in b.db.Subs(h) {
      SourceKnown(b, h, f);
    }
  }

  lemma ChosenCovered(op: Operation, a: ScanDb, b: ScanDb, h: ByteString, skip: set<ByteString>)
    requires a.Valid() && b.Valid() && h in a.db.hashes && NamedFor(op, a, h, skip)
    ensures h != [] && CatalogOf(op, a, b).Covers(Chosen(op, a, b, h).Keys - skip)
  {
    assert a.Sound(Sourced) && a.HashOk(h);
    forall f | f in Chosen(op, a, b, h).Keys - skip
      ensures CatalogOf(op, a, b).Covers({f})
    {
      ChosenKnown(op, a, b, h, f);
      ChosenNamed(op, a, b, h, f);
    }
  }

  lemma ChosenNamed(op: Operation, a: ScanDb, b: ScanDb, h: ByteString, f: ByteString)
    requires f in Chosen(op, a, b, h) && f in CatalogOf(op, a, b).names
    requires op.Add? || op.AddRange? ==> a.db.Names(f) != {}
    ensures CatalogOf(op, a, b).strict ==> CatalogOf(op, a, b).names[f] != {}
  {
    match op {
      case Repository(r) => NameInClass(a, f, r, true);
      case NonRepository(r) => NameInClass(a, f, r, false);
      case _ =>
    }
  }

  lemma ChosenCoveredByName(a: ScanDb, r: ByteString, matching: bool, h: ByteString)
    requires a.Valid() && a.Found(h)
    ensures var op := ByName(r, matching);
            && h != [] && CatalogOf(op, a, a).Covers(Chosen(op, a, a, h).Keys)
            && (forall f :: f in Chosen(op, a, a, h) <==> f in a.FoundSubs(h) && HasName(a, f, r, matching))
            && (forall f :: f in Chosen(op, a, a, h) ==> Chosen(op, a, a, h)[f] == a.FoundSubs(h)[f])
  {
    ChosenCovered(ByName(r, matching), a, a, h, {});
  }

  // ---------- adder_t ----------

  class Adder {
    const a: ScanDb
    const repositoryName: ByteString
    const copier: Copier
    var repositorySources: set<ByteString>
    var nonRepositorySources: set<ByteString>

    constructor (a: ScanDb, repositoryName: ByteString, copier: Copier)
      ensures this.a == a && this.copier == copier && this.repositoryName == repositoryName
      ensures repositorySources == {} && nonRepositorySources == {}
    {
      this.a, this.repositoryName, this.copier := a, repositoryName, copier;
      repositorySources, nonRepositorySources := {}, {};
    }

    ghost predicate Valid()
      reads copier, copier.dest
    {
      a.Valid() && copier.Valid()
    }

    /** The hash must be found and the sources to be copied named, or the code aborts. */
    method AddHash(h: ByteString) returns (ghost added: seq<Copy>)
      requires Valid() && a.Found(h) && NamedFor(Add, a, h, copier.preexisting)
      modifies copier`processed, copier.dest
      ensures Valid() && copier.dest.log == old(copier.dest.log) + added
      ensures CopiesOf(added, copier.id, h, a.db.hashes[h], Chosen(Add, a, a, h), CatalogOf(Add, a, a),
              copier.preexisting)
    {
      ChosenCovered(Add, a, a, h, copier.preexisting);
      added := copier.CopyAll(h, a.db.hashes[h], a.FoundSubs(h), CatalogOf(Add, a, a));
    }

    method AddHashInRange(h: ByteString, m: nat, n: nat) returns (ghost added: seq<Copy>)
      requires Valid() && a.Found(h) && NamedFor(AddRange(m, n), a, h, copier.preexisting)
      modifies copier`processed, copier.dest
      ensures Valid() && copier.dest.log == old(copier.dest.log) + added
      ensures CopiesOf(added, copier.id, h, a.db.hashes[h], Chosen(AddRange(m, n), a, a, h), CatalogOf(Add, a, a),
              copier.preexisting)
    {
      var count := a.Count(h);
      if count >= m && (n == 0 || count <= n) {
        added := AddHash(h);
      } else {
        added := [];
      }
    }

    // ---------- sources by repository name ----------

    ghost predicate Classified()
      reads this, copier
    {
      ClassesOk(a, repositoryName, repositorySources, nonRepositorySources, copier.processed)
    }

    /** The repository name must be defined. */
    method ClassifyRepositorySource(f: ByteString)
      requires repositoryName != []
      modifies this`repositorySources, this`nonRepositorySources
      ensures repositorySources == old(repositorySources) + (if HasName(a, f, repositoryName, true) then {f} else {})
      ensures nonRepositorySources == old(nonRepositorySources)
              + (if HasName(a, f, repositoryName, false) then {f} else {})
    {
      var left := a.db.Names(f);
      ghost var seen: set<Name> := {};
      while left != {}
        invariant left == a.db.Names(f) - seen && seen <= a.db.Names(f)
        invariant repositorySources == old(repositorySources)
              + (if NamesWith(seen, repositoryName, true) != {} then {f} else {})
        invariant nonRepositorySources == old(nonRepositorySources)
              + (if NamesWith(seen, repositoryName, false) != {} then {f} else {})
        decreases left
      {
        var name :| name in left;
        if name.repository == repositoryName {
          assert name in NamesWith(seen + {name}, repositoryName, true);
          assert NamesWith(seen + {name}, repositoryName, false) == NamesWith(seen, repositoryName, false);
          repositorySources := repositorySources + {f};
        } else {
          assert name in NamesWith(seen + {name}, repositoryName, false);
          assert NamesWith(seen + {name}, repositoryName, true) == NamesWith(seen, repositoryName, true);
          nonRepositorySources := nonRepositorySources + {f};
        }
        left, seen := left - {name}, seen + {name};
      }
      assert seen == a.db.Names(f);
      NameInClass(a, f, repositoryName, true);
      NameInClass(a, f, repositoryName, false);
    }

    /** Classify a source unless it is known, then look its class up. */
    method IsWanted(f: ByteString, matching: bool) returns (wanted: bool)
      requires Classified() && repositoryName != []
      modifies this`repositorySources, this`nonRepositorySources
      ensures Classified() && (wanted ==> f in repositorySources || f in nonRepositorySources)
      ensures wanted <==> HasName(a, f, repositoryName, matching)
    {
      if f !in copier.processed && f !in nonRepositorySources {
        ClassifyRepositorySource(f);
      }
      wanted := if matching then f in repositorySources else f in nonRepositorySources;
    }

    /** Look at one source, and copy it if its class is wanted. */
    method CopyIfWanted(h: ByteString, e: HashData, f: ByteString, subCount: nat, cat: Catalog, matching: bool)
      returns (wanted: bool)
      requires Valid() && Classified() && repositoryName != [] && h != []
      requires HasName(a, f, repositoryName, matching) ==> cat.Covers({f})
      modifies this`repositorySources, this`nonRepositorySources, copier`processed, copier.dest
      ensures Valid() && Classified() && (wanted <==> HasName(a, f, repositoryName, matching))
      ensures copier.dest.log == old(copier.dest.log) + (if wanted then
                                                              [CopyOf(copier.id, h, e, f, subCount, cat)] else [])
    {
      wanted := IsWanted(f, matching);
      if wanted {
        copier.CopySource(h, e, f, subCount, cat);
      }
    }

    /** add_repository and add_non_repository: only sources with a name of the wanted
        kind, and only their names of that kind. */
    method AddHashByRepository(h: ByteString, matching: bool) returns (ghost added: seq<Copy>)
      requires Valid() && a.Found(h) && Classified() && repositoryName != []
      modifies this`repositorySources, this`nonRepositorySources, copier`processed, copier.dest
      ensures Valid() && Classified() && copier.dest.log == old(copier.dest.log) + added
      ensures var op := ByName(repositoryName, matching);
              CopiesOf(added, copier.id, h, a.db.hashes[h], Chosen(op, a, a, h), CatalogOf(op, a, a),
                copier.preexisting)
    {
      var op := ByName(repositoryName, matching);
      ChosenCoveredByName(a, repositoryName, matching, h);
      added := CopyWanted(h, a.db.hashes[h], a.FoundSubs(h), CatalogOf(op, a, a), matching, Chosen(op, a, a, h));
    }

    method CopyWanted(h: ByteString, e: HashData, subs: map<ByteString, nat>, cat: Catalog, matching: bool,
                      ghost chosen: map<ByteString, nat>)
      returns (ghost added: seq<Copy>)
      requires Valid() && Classified() && repositoryName != [] && h != [] && cat.Covers(chosen.Keys)
      requires forall f :: f in chosen <==> f in subs && HasName(a, f, repositoryName, matching)
      requires forall f :: f in chosen ==> chosen[f] == subs[f]
      modifies this`repositorySources, this`nonRepositorySources, copier`processed, copier.dest
      ensures Valid() && Classified() && copier.dest.log == old(copier.dest.log) + added
      ensures CopiesOf(added, copier.id, h, e, chosen, cat, copier.preexisting)
    {
      var left := subs.Keys;
      added := [];
      while left != {}
        invariant Valid() && Classified() && copier.dest.log == old(copier.dest.log) + added && left <= subs.Keys
        invariant CopiesOf(added, copier.id, h, e, chosen, cat, copier.preexisting + left)
        decreases left
      {
        var f :| f in left;
        SkipUnchosen(added, copier.id, h, e, chosen, cat, copier.preexisting, left, f);
        if f !in copier.preexisting {
          var wanted := CopyIfWanted(h, e, f, subs[f], cat, matching);
          if wanted {
            OneMoreChosen(added, copier.id, h, e, chosen, cat, copier.preexisting, left, f);
            added := added + [CopyOf(copier.id, h, e, f, subs[f], cat)];
          }
        }
        left := left - {f};
      }
      assert copier.preexisting + {} == copier.preexisting;
    }
  }

  /** A source that was looked at is in each class it belongs to; processed ones were. */
  ghost predicate ClassesOk(a: ScanDb, r: ByteString, inside: set<ByteString>, outside: set<ByteString>,
                            processed: set<ByteString>)
  {
    && (forall f :: f in inside ==> HasName(a, f, r, true))
    && (forall f :: f in outside ==> HasName(a, f, r, false))
    && (forall f :: f in inside && HasName(a, f, r, false) ==> f in outside)
    && (forall f :: f in outside && HasName(a, f, r, true) ==> f in inside)
    && (forall f :: f in processed ==> f in inside || f in outside)
  }

  function ByName(repository: ByteString, matching: bool): Operation {
    if matching then Repository(repository) else NonRepository(repository)
  }

  /** Passing over a source that is skipped or not chosen. */
  lemma SkipUnchosen(copies: seq<Copy>, id: nat, h: ByteString, e: HashData, chosen: map<ByteString, nat>, cat: Catalog,
                     skip: set<ByteString>, left: set<ByteString>, f: ByteString)
    requires CopiesOf(copies, id, h, e, chosen, cat, skip + left)
    ensures f in skip || f !in chosen ==> CopiesOf(copies, id, h, e, chosen, cat, skip + (left - {f}))
  {
    if f in skip || f !in chosen {
      forall i | 0 <= i < |copies|
        ensures IsChosen(copies[i], id, h, e, chosen, cat, skip + (left - {f}))
      {
        assert IsChosen(copies[i], id, h, e, chosen, cat, skip + left);
      }
    }
  }

  lemma NameInClass(a: ScanDb, f: ByteString, repository: ByteString, matching: bool)
    ensures HasName(a, f, repository, matching) <==> NamesWith(a.db.Names(f), repository, matching) != {}
  {
    if HasName(a, f, repository, matching) {
      var name :| name in a.db.Names(f) && (name.repository == repository) == matching;
      assert name in NamesWith(a.db.Names(f), repository, matching);
    }
  }

  // ---------- adder_set_t ----------

  class AdderSet {
    const a: ScanDb
    const b: ScanDb
    const copier: Copier

    constructor (a: ScanDb, b: ScanDb, copier: Copier)
      ensures this.a == a && this.b == b && this.copier == copier
    {
      this.a, this.b, this.copier := a, b, copier;
    }

    ghost predicate Valid()
      reads copier, copier.dest
    {
      a.Valid() && b.Valid() && copier.Valid()
    }

    /** What each of the four methods appends to the log of copies. */
    ghost predicate Copied(op: Operation, h: ByteString, added: seq<Copy>)
      requires h in a.db.hashes
    {
      CopiesOf(added, copier.id, h, a.db.hashes[h], Chosen(op, a, b, h), CatalogOf(op, a, b), copier.preexisting)
    }

    method CopyChosen(op: Operation, h: ByteString, chosen: map<ByteString, nat>) returns (ghost added: seq<Copy>)
      requires Valid() && h in a.db.hashes && chosen == Chosen(op, a, b, h) && !op.Add? && !op.AddRange?
      modifies copier`processed, copier.dest
      ensures Valid() && copier.dest.log == old(copier.dest.log) + added && Copied(op, h, added)
    {
      ChosenCovered(op, a, b, h, copier.preexisting);
      added := copier.CopyAll(h, a.db.hashes[h], chosen, CatalogOf(op, a, b));
    }

    method IntersectSources(h: ByteString) returns (ghost added: seq<Copy>)
      requires Valid() && a.Found(h)
      modifies copier`processed, copier.dest
      ensures Valid() && copier.dest.log == old(copier.dest.log) + added && Copied(Intersect, h, added)
    {
      var common := ChooseCommon(a, b, h);
      added := CopyChosen(Intersect, h, common);
    }

    method IntersectHashes(h: ByteString) returns (ghost added: seq<Copy>)
      requires Valid() && a.Found(h)
      modifies copier`processed, copier.dest
      ensures Valid() && copier.dest.log == old(copier.dest.log) + added && Copied(IntersectHash, h, added)
    {
      var union := ChooseUnion(a, b, h);
      added := CopyChosen(IntersectHash, h, union);
    }

    method SubtractSources(h: ByteString) returns (ghost added: seq<Copy>)
      requires Valid() && a.Found(h)
      modifies copier`processed, copier.dest
      ensures Valid() && copier.dest.log == old(copier.dest.log) + added && Copied(Subtract, h, added)
    {
      var rest := ChooseRest(a, b, h);
      added := CopyChosen(Subtract, h, rest);
    }

    method SubtractHashes(h: ByteString) returns (ghost added: seq<Copy>)
      requires Valid() && a.Found(h)
      modifies copier`processed, copier.dest
      ensures Valid() && copier.dest.log == old(copier.dest.log) + added && Copied(SubtractHash, h, added)
    {
      var subs := ChooseAbsent(a, b, h);
      added := CopyChosen(SubtractHash, h, subs);
    }
  }

  method ChooseCommon(a: ScanDb, b: ScanDb, h: ByteString) returns (common: map<ByteString, nat>)
    requires a.Found(h)
    ensures common == Chosen(Intersect, a, b, h)
  {
    common := Split(a.FoundSubs(h), b.FoundSubs(h), true);
    SplitIsChosen(a, b, h, common, true);
  }

  method ChooseRest(a: ScanDb, b: ScanDb, h: ByteString) returns (rest: map<ByteString, nat>)
    requires a.Found(h)
    ensures rest == Chosen(Subtract, a, b, h)
  {
    rest := Split(a.FoundSubs(h), b.FoundSubs(h), false);
    SplitIsChosen(a, b, h, rest, false);
  }

  /** This one asks B for its count, not for the hash. */
  method ChooseAbsent(a: ScanDb, b: ScanDb, h: ByteString) returns (subs: map<ByteString, nat>)
    requires a.Found(h)
    ensures subs == Chosen(SubtractHash, a, b, h)
  {
    var count := b.Count(h);
    subs := if count == 0 then a.FoundSubs(h) else map[];
  }

  /** The union of both databases' sources, A's first, when B has the hash too. */
  method ChooseUnion(a: ScanDb, b: ScanDb, h: ByteString) returns (union: map<ByteString, nat>)
    requires a.Found(h)
    ensures union == Chosen(IntersectHash, a, b, h)
  {
    union := map[];
    if b.Found(h) {
      union := InsertAll(map[], a.FoundSubs(h));
      union := InsertAll(union, b.FoundSubs(h));
    }
  }

  lemma SplitIsChosen(a: ScanDb, b: ScanDb, h: ByteString, r: map<ByteString, nat>, inside: bool)
    requires a.Found(h)
    requires forall f :: f in r <==> f in a.FoundSubs(h) && (f in b.FoundSubs(h) <==> inside)
    requires forall f :: f in r ==> r[f] == a.FoundSubs(h)[f]
    ensures r == Chosen(if inside then Intersect else Subtract, a, b, h)
  {
  }

  /** The entries of x whose keys are in y, or are not. */
  method Split(x: map<ByteString, nat>, y: map<ByteString, nat>, inside: bool) returns (r: map<ByteString, nat>)
    ensures forall f :: f in r <==> f in x && (f in y <==> inside)
    ensures forall f :: f in r ==> r[f] == x[f]
  {
    r := map[];
    var left := x.Keys;
    while left != {}
      invariant left <= x.Keys
      invariant forall f :: f in r <==> f in x && f !in left && (f in y <==> inside)
      invariant forall f :: f in r ==> r[f] == x[f]
      decreases left
    {
      var f :| f in left;
      left := left - {f};
      if (f in y) == inside {
        r := r[f := x[f]];
      }
    }
  }

  /** std::set insertion, keyed by file hash: what is there stays. */
  method InsertAll(x: map<ByteString, nat>, y: map<ByteString, nat>) returns (r: map<ByteString, nat>)
    ensures r == y + x
  {
    r := x;
    var left := y.Keys;
    while left != {}
      invariant left <= y.Keys
      invariant forall f :: f in r <==> f in x || (f in y && f !in left)
      invariant forall f :: f in r ==> r[f] == if f in x then x[f] else y[f]
      decreases left
    {
      var f :| f in left;
      left := left - {f};
      if f !in r {
        r := r[f := y[f]];
      }
    }
  }
}
