/** add_multiple: hashes of any number of producers merged in order into one consumer. */
module AddMultiple {
  import opened ByteStrings
  import opened HashDataModel
  import opened HashDataRecords
  import opened Databases
  import opened Copying
  import opened SetOperations
  import SetResults

  /** A producer's next hash, as an entry of the multimap that orders the producers. */
  datatype Pending = Pending(h: ByteString, p: nat, adder: Adder)

  /** A hash handed to the consumer, and by which producer. */
  datatype Handed = Handed(h: ByteString, p: nat)

  predicate NotAfter(a: ByteString, b: ByteString) {
    !LexLess(b, a)
  }

  lemma NotAfterTransitive(a: ByteString, b: ByteString, c: ByteString)
    requires NotAfter(a, b) && NotAfter(b, c)
    ensures NotAfter(a, c)
  {
    if LexLess(c, a) {
      if b != c {
        LexTotal(b, c);
      }
      if a != b {
        LexTotal(a, b);
      }
      NotAfterChain(a, b, c);
    }
  }

  lemma NotAfterChain(a: ByteString, b: ByteString, c: ByteString)
    requires a == b || LexLess(a, b)
    requires b == c || LexLess(b, c)
    ensures NotAfter(a, c)
  {
    LexIrreflexive(c);
    if a != b && b != c {
      LexTransitive(a, b, c);
    }
    if a != c && LexLess(c, a) {
      LexTransitive(c, a, c);
    }
  }

  // ---------- the ordered producers ----------

  ghost predicate Sorted(queue: seq<Pending>) {
    forall i, j :: 0 <= i < j < |queue| ==> NotAfter(queue[i].h, queue[j].h)
  }

  function InsertedAt(queue: seq<Pending>, x: Pending, k: nat): seq<Pending>
    requires k <= |queue|
  {
    queue[..k] + [x] + queue[k..]
  }

  /** Multimap insertion: behind all entries with the same hash. */
  method Insert(queue: seq<Pending>, x: Pending) returns (r: seq<Pending>, ghost k: nat)
    requires Sorted(queue)
    ensures k <= |queue| && r == InsertedAt(queue, x, k) && Sorted(r)
    ensures forall j :: k <= j < |queue| ==> LexLess(x.h, queue[j].h)
  {
    var i := 0;
    while i < |queue| && !LexLess(x.h, queue[i].h)
      invariant i <= |queue| && forall j :: 0 <= j < i ==> NotAfter(queue[j].h, x.h)
    {
      i := i + 1;
    }
    forall j | i <= j < |queue|
      ensures NotAfter(x.h, queue[j].h) && LexLess(x.h, queue[j].h)
    {
      LaterToo(x.h, queue, i, j);
    }
    k := i;
    r := queue[..i] + [x] + queue[i..];
    SortedInserted(queue, x, i);
  }

  lemma LaterToo(h: ByteString, queue: seq<Pending>, i: nat, j: nat)
    requires Sorted(queue) && i <= j < |queue| && LexLess(h, queue[i].h)
    ensures NotAfter(h, queue[j].h) && LexLess(h, queue[j].h)
  {
    if i < j && queue[i].h != queue[j].h {
      LexTotal(queue[i].h, queue[j].h);
      LexTransitive(h, queue[i].h, queue[j].h);
    }
    NotAfterChain(h, queue[j].h, queue[j].h);
  }

  lemma SortedInserted(queue: seq<Pending>, x: Pending, k: nat)
    requires Sorted(queue) && k <= |queue|
    requires forall j :: 0 <= j < k ==> NotAfter(queue[j].h, x.h)
    requires forall j :: k <= j < |queue| ==> NotAfter(x.h, queue[j].h)
    ensures Sorted(InsertedAt(queue, x, k))
  {
    var r := InsertedAt(queue, x, k);
    forall i, j | 0 <= i < j < |r|
      ensures NotAfter(r[i].h, r[j].h)
    {
      assert r[i] == if i < k then queue[i] else if i == k then x else queue[i - 1];
      assert r[j] == if j < k then queue[j] else if j == k then x else queue[j - 1];
    }
  }

  /** Each entry is its producer's next hash; no producer has two. */
  ghost predicate Ahead(queue: seq<Pending>, producers: seq<ScanDb>, pos: seq<nat>) {
    && |pos| == |producers|
    && (forall i :: 0 <= i < |queue| ==> IsNext(queue[i], producers, pos))
    && (forall i, j :: 0 <= i < j < |queue| ==> queue[i].p != queue[j].p)
  }

  ghost predicate IsNext(x: Pending, producers: seq<ScanDb>, pos: seq<nat>)
    requires |pos| == |producers|
  {
    x.p < |producers| && pos[x.p] < |producers[x.p].keys| && x.h == producers[x.p].keys[pos[x.p]]
  }

  ghost predicate Waits(queue: seq<Pending>, p: nat) {
    exists i :: 0 <= i < |queue| && queue[i].p == p
  }

  /** Every producer up to n with hashes left has an entry. */
  ghost predicate AllWait(queue: seq<Pending>, producers: seq<ScanDb>, pos: seq<nat>, n: nat)
    requires n <= |producers| == |pos|
  {
    forall p :: 0 <= p < n && pos[p] < |producers[p].keys| ==> Waits(queue, p)
  }

  lemma PlacesInserted(queue: seq<Pending>, x: Pending, k: nat)
    requires k <= |queue|
    ensures |InsertedAt(queue, x, k)| == |queue| + 1
    ensures forall i :: 0 <= i <= |queue| ==>
                          InsertedAt(queue, x, k)[i] == if i < k then queue[i] else if i == k then x else queue[i - 1]
  {
  }

  lemma InsertKeepsAhead(queue: seq<Pending>, producers: seq<ScanDb>, pos: seq<nat>, x: Pending, k: nat)
    requires Ahead(queue, producers, pos) && IsNext(x, producers, pos) && !Waits(queue, x.p) && k <= |queue|
    ensures Ahead(InsertedAt(queue, x, k), producers, pos)
    ensures forall p :: Waits(queue, p) || p == x.p ==> Waits(InsertedAt(queue, x, k), p)
  {
    var r := InsertedAt(queue, x, k);
    PlacesInserted(queue, x, k);
    forall p | Waits(queue, p) || p == x.p
      ensures Waits(r, p)
    {
      if p == x.p {
        assert r[k].p == p;
      } else {
        var i :| 0 <= i < |queue| && queue[i].p == p;
        assert r[if i < k then i else i + 1].p == p;
      }
    }
  }

  /** The first entry leaves, and its producer moves on. */
  lemma TakeKeepsAhead(queue: seq<Pending>, producers: seq<ScanDb>, pos: seq<nat>)
    requires Ahead(queue, producers, pos) && queue != [] && Sorted(queue)
    ensures var p := queue[0].p;
            && Ahead(queue[1..], producers, pos[p := pos[p] + 1]) && Sorted(queue[1..]) && !Waits(queue[1..], p)
            && (forall q :: q != p && Waits(queue, q) ==> Waits(queue[1..], q))
  {
    var p := queue[0].p;
    assert IsNext(queue[0], producers, pos);
    forall i | 0 <= i < |queue[1..]|
      ensures IsNext(queue[1..][i], producers, pos[p := pos[p] + 1]) && queue[1..][i].p != p
    {
      assert IsNext(queue[i + 1], producers, pos);
    }
    forall q | q != p && Waits(queue, q)
      ensures Waits(queue[1..], q)
    {
      var i :| 0 <= i < |queue| && queue[i].p == q;
      assert queue[1..][i - 1].p == q;
    }
  }

  // ---------- what was handed on ----------

  ghost predicate InOrder(order: seq<Handed>) {
    forall i, j :: 0 <= i < j < |order| ==> NotAfter(order[i].h, order[j].h)
  }

  /** Nothing waiting comes before anything handed on. */
  ghost predicate Before(order: seq<Handed>, queue: seq<Pending>) {
    forall i, j :: 0 <= i < |order| && 0 <= j < |queue| ==> NotAfter(order[i].h, queue[j].h)
  }

  lemma HandOn(order: seq<Handed>, queue: seq<Pending>)
    requires InOrder(order) && Before(order, queue) && Sorted(queue) && queue != []
    ensures var more := order + [Handed(queue[0].h, queue[0].p)];
            InOrder(more) && Before(more, queue[1..])
            && forall h :: LexLess(queue[0].h, h) ==> forall i :: 0 <= i < |more| ==> NotAfter(more[i].h, h)
  {
    var more := order + [Handed(queue[0].h, queue[0].p)];
    LexIrreflexive(queue[0].h);
    forall h, i | LexLess(queue[0].h, h) && 0 <= i < |more|
      ensures NotAfter(more[i].h, h)
    {
      NotAfterChain(queue[0].h, h, h);
      if i < |order| {
        NotAfterTransitive(order[i].h, queue[0].h, h);
      }
    }
  }

  lemma InsertKeepsBefore(order: seq<Handed>, queue: seq<Pending>, x: Pending, k: nat)
    requires Before(order, queue) && k <= |queue| && forall i :: 0 <= i < |order| ==> NotAfter(order[i].h, x.h)
    ensures Before(order, InsertedAt(queue, x, k))
  {
  }

  /** The hashes that one producer handed on, in order. */
  ghost function Of(order: seq<Handed>, n: nat, p: nat): seq<ByteString>
    requires n <= |order|
  {
    if n == 0 then [] else
      Of(order, n - 1, p) + (if order[n - 1].p == p then [order[n - 1].h] else [])
  }

  lemma {:induction false} OfPrefix(a: seq<Handed>, b: seq<Handed>, n: nat, p: nat)
    requires n <= |a|
    ensures Of(a + b, n, p) == Of(a, n, p)
  {
    if n == 0 {
    } else {
      OfPrefix(a, b, n - 1, p);
    }
  }

  /** Each producer has handed on its first hashes, as many as its position says. */
  ghost predicate HandedAll(order: seq<Handed>, producers: seq<ScanDb>, pos: seq<nat>) {
    |pos| == |producers| &&
    forall p :: 0 <= p < |producers| ==>
                  pos[p] <= |producers[p].keys| && Of(order, |order|, p) == producers[p].keys[..pos[p]]
  }

  lemma HandedMore(order: seq<Handed>, producers: seq<ScanDb>, pos: seq<nat>, x: Pending)
    requires HandedAll(order, producers, pos) && IsNext(x, producers, pos)
    ensures HandedAll(order + [Handed(x.h, x.p)], producers, pos[x.p := pos[x.p] + 1])
  {
    var more := order + [Handed(x.h, x.p)];
    forall p | 0 <= p < |producers|
      ensures pos[x.p := pos[x.p] + 1][p] <= |producers[p].keys|
      ensures Of(more, |more|, p) == producers[p].keys[..pos[x.p := pos[x.p] + 1][p]]
    {
      OfPrefix(order, [Handed(x.h, x.p)], |order|, p);
      assert p == x.p ==> producers[p].keys[..pos[p] + 1] == producers[p].keys[..pos[p]] + [x.h];
    }
  }

  // ---------- whose turn it is ----------

  /** When producer p's entry that waits after i hashes was enqueued: at the index of the
      producer's previous hash, or, with its first hash, before all of them and by number. */
  ghost function Since(order: seq<Handed>, i: nat, p: nat, n: nat): int
    requires i <= |order|
  {
    if i == 0 then p - n else if order[i - 1].p == p then i - 1 else Since(order, i - 1, p, n)
  }

  /** Of equal hashes, the one that was enqueued earlier is handed on earlier. */
  ghost predicate InTurn(order: seq<Handed>, n: nat) {
    forall i, k :: 0 <= i < k < |order| && order[i].h == order[k].h ==>
                     Since(order, i, order[i].p, n) < Since(order, k, order[k].p, n)
  }

  ghost predicate QueueInTurn(queue: seq<Pending>, order: seq<Handed>, n: nat) {
    forall i, j :: 0 <= i < j < |queue| && queue[i].h == queue[j].h ==>
                     Since(order, |order|, queue[i].p, n) < Since(order, |order|, queue[j].p, n)
  }

  ghost predicate HandedInTurn(queue: seq<Pending>, order: seq<Handed>, n: nat) {
    forall i, j :: 0 <= i < |order| && 0 <= j < |queue| && order[i].h == queue[j].h ==>
                     Since(order, i, order[i].p, n) < Since(order, |order|, queue[j].p, n)
  }

  ghost predicate Turns(queue: seq<Pending>, order: seq<Handed>, n: nat) {
    && (forall i :: 0 <= i < |queue| ==> queue[i].p < n) && (forall i :: 0 <= i < |order| ==> order[i].p < n)
    && InTurn(order, n) && QueueInTurn(queue, order, n) && HandedInTurn(queue, order, n)
  }

  lemma {:induction false} SincePrefix(a: seq<Handed>, b: seq<Handed>, i: nat, p: nat, n: nat)
    requires i <= |a|
    ensures Since(a + b, i, p, n) == Since(a, i, p, n)
  {
    if i == 0 {
    } else {
      SincePrefix(a, b, i - 1, p, n);
    }
  }

  lemma {:induction false} SinceBefore(order: seq<Handed>, i: nat, p: nat, n: nat)
    requires i <= |order| && p < n
    ensures Since(order, i, p, n) < i
  {
    if i == 0 {
    } else {
      SinceBefore(order, i - 1, p, n);
    }
  }

  /** The first entry leaves: the turns of the others stay as they were. */
  lemma TakeKeepsTurns(queue: seq<Pending>, order: seq<Handed>, n: nat)
    requires Turns(queue, order, n) && queue != []
    requires forall i, j :: 0 <= i < j < |queue| ==> queue[i].p != queue[j].p
    ensures Turns(queue[1..], order + [Handed(queue[0].h, queue[0].p)], n)
  {
    var x := Handed(queue[0].h, queue[0].p);
    var more := order + [x];
    forall i, p | 0 <= i <= |order|
      ensures Since(more, i, p, n) == Since(order, i, p, n)
    {
      SincePrefix(order, [x], i, p, n);
    }
    forall p | p != x.p
      ensures Since(more, |more|, p, n) == Since(order, |order|, p, n)
    {
    }
    HandedStays(queue, order, n, more);
    RestStays(queue, order, n, more);
  }

  /** More was handed on, and nothing was enqueued before. */
  ghost predicate OneMore(queue: seq<Pending>, order: seq<Handed>, n: nat, more: seq<Handed>) {
    && queue != [] && more == order + [Handed(queue[0].h, queue[0].p)]
    && (forall i, p :: 0 <= i <= |order| ==> Since(more, i, p, n) == Since(order, i, p, n))
    && (forall p :: p != queue[0].p ==> Since(more, |more|, p, n) == Since(order, |order|, p, n))
  }

  lemma HandedStays(queue: seq<Pending>, order: seq<Handed>, n: nat, more: seq<Handed>)
    requires Turns(queue, order, n) && OneMore(queue, order, n, more)
    ensures InTurn(more, n)
  {
    forall i, k | 0 <= i < k < |more| && more[i].h == more[k].h
      ensures Since(more, i, more[i].p, n) < Since(more, k, more[k].p, n)
    {
      assert more[i] == order[i] && (k < |order| ==> more[k] == order[k]);
    }
  }

  lemma RestStays(queue: seq<Pending>, order: seq<Handed>, n: nat, more: seq<Handed>)
    requires Turns(queue, order, n) && OneMore(queue, order, n, more)
    requires forall i, j :: 0 <= i < j < |queue| ==> queue[i].p != queue[j].p
    ensures QueueInTurn(queue[1..], more, n) && HandedInTurn(queue[1..], more, n)
  {
    var rest := queue[1..];
    forall j | 0 <= j < |rest|
      ensures Since(more, |more|, rest[j].p, n) == Since(order, |order|, queue[j + 1].p, n)
    {
    }
    forall i, j | 0 <= i < |more| && 0 <= j < |rest| && more[i].h == rest[j].h
      ensures Since(more, i, more[i].p, n) < Since(more, |more|, rest[j].p, n)
    {
      assert i < |order| ==> more[i] == order[i];
    }
  }

  /** A producer that is enqueued again goes behind those that wait with its hash. */
  lemma InsertKeepsTurns(queue: seq<Pending>, order: seq<Handed>, n: nat, x: Pending, k: nat)
    requires Turns(queue, order, n) && k <= |queue| && x.p < n && order != [] && order[|order| - 1].p == x.p
    requires forall i :: 0 <= i < |queue| ==> queue[i].p != x.p
    requires forall j :: k <= j < |queue| ==> queue[j].h != x.h
    ensures Turns(InsertedAt(queue, x, k), order, n)
  {
    PlacesInserted(queue, x, k);
    forall i | 0 <= i < |queue|
      ensures Since(order, |order|, queue[i].p, n) < |order| - 1
    {
      SinceBefore(order, |order| - 1, queue[i].p, n);
    }
    forall i | 0 <= i < |order|
      ensures Since(order, i, order[i].p, n) < |order| - 1
    {
      SinceBefore(order, i, order[i].p, n);
    }
    InsertedTurns(queue, order, n, x, k);
  }

  lemma InsertedTurns(queue: seq<Pending>, order: seq<Handed>, n: nat, x: Pending, k: nat)
    requires Turns(queue, order, n) && k <= |queue| && x.p < n
    requires forall j :: k <= j < |queue| ==> queue[j].h != x.h
    requires forall i :: 0 <= i < |queue| ==> Since(order, |order|, queue[i].p, n) < Since(order, |order|, x.p, n)
    requires forall i :: 0 <= i < |order| ==> Since(order, i, order[i].p, n) < Since(order, |order|, x.p, n)
    ensures Turns(InsertedAt(queue, x, k), order, n)
  {
    PlacesInserted(queue, x, k);
  }

  /** The hashes left over all producers: what makes the loop end. */
  ghost function HashesLeft(producers: seq<ScanDb>, pos: seq<nat>, n: nat): int
    requires n <= |producers| == |pos|
  {
    if n == 0 then 0 else HashesLeft(producers, pos, n - 1) + |producers[n - 1].keys| - pos[n - 1]
  }

  lemma {:induction false} FewerLeft(producers: seq<ScanDb>, pos: seq<nat>, n: nat, p: nat)
    requires n <= |producers| == |pos| && p < |producers|
    ensures HashesLeft(producers, pos[p := pos[p] + 1], n) == HashesLeft(producers, pos, n) - (if p < n then 1 else 0)
  {
    if n == 0 {
    } else {
      FewerLeft(producers, pos, n - 1, p);
    }
  }

  lemma {:induction false} LeftNotNegative(producers: seq<ScanDb>, pos: seq<nat>, n: nat)
    requires n <= |producers| == |pos| && forall p :: 0 <= p < |producers| ==> pos[p] <= |producers[p].keys|
    ensures HashesLeft(producers, pos, n) >= 0
  {
    if n == 0 {
    } else {
      LeftNotNegative(producers, pos, n - 1);
    }
  }

  // ---------- what was copied ----------

  ghost predicate CopyFrom(c: Copy, producers: seq<ScanDb>, skip: set<ByteString>) {
    c.id < |producers| &&
    var a := producers[c.id];
    c.h in a.db.hashes && IsChosen(c, c.id, c.h, a.db.hashes[c.h], a.db.Subs(c.h), CatalogOf(Add, a, a), skip)
  }

  /** Some producer has handed on this hash and has this source for it. */
  ghost predicate Given(producers: seq<ScanDb>, pos: seq<nat>, p: nat, k: nat, f: ByteString) {
    p < |producers| == |pos| && k < pos[p] && k < |producers[p].keys| && f in producers[p].db.Subs(producers[p].keys[k])
  }

  ghost predicate CopiedFor(copies: seq<Copy>, p: nat, h: ByteString, f: ByteString) {
    exists i :: 0 <= i < |copies| && copies[i].h == h && copies[i].f == f && copies[i].id == p
  }

  /** The copies are those of all sources, not known before, of all hashes handed on. */
  ghost predicate LogOk(copies: seq<Copy>, producers: seq<ScanDb>, pos: seq<nat>, skip: set<ByteString>) {
    && (forall i :: 0 <= i < |copies| ==> CopyFrom(copies[i], producers, skip))
    && (forall p: nat, k: nat, f :: Given(producers, pos, p, k, f) && f !in skip ==>
      CopiedFor(copies, p, producers[p].keys[k], f))
  }

  lemma LogMore(copies: seq<Copy>, added: seq<Copy>, producers: seq<ScanDb>, pos: seq<nat>, skip: set<ByteString>,
                x: Pending)
    requires LogOk(copies, producers, pos, skip) && |pos| == |producers| && IsNext(x, producers, pos)
    requires x.h in producers[x.p].db.hashes
    requires var a := producers[x.p];
             CopiesOf(added, x.p, x.h, a.db.hashes[x.h], a.db.Subs(x.h), CatalogOf(Add, a, a), skip)
    ensures LogOk(copies + added, producers, pos[x.p := pos[x.p] + 1], skip)
  {
    var a, all := producers[x.p], copies + added;
    forall i | 0 <= i < |all|
      ensures CopyFrom(all[i], producers, skip)
    {
      if i < |copies| {
        assert CopyFrom(copies[i], producers, skip);
      } else {
        assert IsChosen(added[i - |copies|], x.p, x.h, a.db.hashes[x.h], a.db.Subs(x.h), CatalogOf(Add, a, a), skip);
      }
    }
    forall p: nat, k: nat, f | Given(producers, pos[x.p := pos[x.p] + 1], p, k, f) && f !in skip
      ensures CopiedFor(all, p, producers[p].keys[k], f)
    {
      if Given(producers, pos, p, k, f) {
        var i :| 0 <= i < |copies| && copies[i].h == producers[p].keys[k] && copies[i].f == f && copies[i].id == p;
        assert all[i].h == producers[p].keys[k] && all[i].f == f && all[i].id == p;
      } else {
        var i :| 0 <= i < |added| && added[i].f == f;
        assert IsChosen(added[i], x.p, x.h, a.db.hashes[x.h], a.db.Subs(x.h), CatalogOf(Add, a, a), skip);
        assert all[|copies| + i].h == producers[p].keys[k] && all[|copies| + i].f == f && all[|copies| + i].id == p;
      }
    }
  }

  /** Copy i was made for the hash handed on at index at[i]. */
  ghost predicate MadeFor(copies: seq<Copy>, at: seq<nat>, i: nat, order: seq<Handed>)
    requires i < |copies| == |at|
  {
    at[i] < |order| && copies[i].h == order[at[i]].h && copies[i].id == order[at[i]].p
  }

  ghost predicate CopiedAt(copies: seq<Copy>, at: seq<nat>, j: nat, f: ByteString)
    requires |copies| == |at|
  {
    exists i :: 0 <= i < |at| && at[i] == j && copies[i].f == f
  }

  /** The producer of a hash handed on has this source for it. */
  ghost predicate Brought(producers: seq<ScanDb>, x: Handed, f: ByteString) {
    x.p < |producers| && f in producers[x.p].db.Subs(x.h)
  }

  /** The copies were made in the order in which the hashes were handed on, and for each of
      them all that were due. */
  ghost predicate Follows(copies: seq<Copy>, at: seq<nat>, order: seq<Handed>, producers: seq<ScanDb>,
                          skip: set<ByteString>)
  {
    && |copies| == |at|
    && (forall i :: 0 <= i < |at| ==> MadeFor(copies, at, i, order))
    && (forall i, j :: 0 <= i < j < |at| ==> at[i] <= at[j])
    && (forall j, f :: 0 <= j < |order| && Brought(producers, order[j], f) && f !in skip ==> CopiedAt(copies, at, j, f))
  }

  ghost function ForLast(at: seq<nat>, added: seq<Copy>, order: seq<Handed>): seq<nat> {
    at + seq(|added|, _ => |order|)
  }

  lemma FollowsMore(copies: seq<Copy>, at: seq<nat>, order: seq<Handed>, producers: seq<ScanDb>, skip: set<ByteString>,
                    x: Handed, added: seq<Copy>)
    requires Follows(copies, at, order, producers, skip) && x.p < |producers| && x.h in producers[x.p].db.hashes
    requires var a := producers[x.p];
             CopiesOf(added, x.p, x.h, a.db.hashes[x.h], a.db.Subs(x.h), CatalogOf(Add, a, a), skip)
    ensures Follows(copies + added, ForLast(at, added, order), order + [x], producers, skip)
  {
    MadeForMore(copies, at, order, producers, skip, x, added);
    forall j, f | 0 <= j < |order + [x]| && Brought(producers, (order + [x])[j], f) && f !in skip
      ensures CopiedAt(copies + added, ForLast(at, added, order), j, f)
    {
      CopiedMore(copies, at, order, producers, skip, x, added, j, f);
    }
  }

  lemma MadeForMore(copies: seq<Copy>, at: seq<nat>, order: seq<Handed>, producers: seq<ScanDb>, skip: set<ByteString>,
                    x: Handed, added: seq<Copy>)
    requires Follows(copies, at, order, producers, skip) && x.p < |producers| && x.h in producers[x.p].db.hashes
    requires var a := producers[x.p];
             CopiesOf(added, x.p, x.h, a.db.hashes[x.h], a.db.Subs(x.h), CatalogOf(Add, a, a), skip)
    ensures var at' := ForLast(at, added, order);
            && (forall i :: 0 <= i < |at'| ==> MadeFor(copies + added, at', i, order + [x]))
            && (forall i, j :: 0 <= i < j < |at'| ==> at'[i] <= at'[j])
  {
    var a, n, at' := producers[x.p], |copies|, ForLast(at, added, order);
    forall i | 0 <= i < |at'|
      ensures MadeFor(copies + added, at', i, order + [x]) && at'[i] <= |order| && (i >= n ==> at'[i] == |order|)
    {
      if i < n {
        assert MadeFor(copies, at, i, order);
      } else {
        assert IsChosen(added[i - n], x.p, x.h, a.db.hashes[x.h], a.db.Subs(x.h), CatalogOf(Add, a, a), skip);
      }
    }
  }

  lemma CopiedMore(copies: seq<Copy>, at: seq<nat>, order: seq<Handed>, producers: seq<ScanDb>, skip: set<ByteString>,
                   x: Handed, added: seq<Copy>, j: nat, f: ByteString)
    requires Follows(copies, at, order, producers, skip) && x.p < |producers| && x.h in producers[x.p].db.hashes
    requires var a := producers[x.p];
             CopiesOf(added, x.p, x.h, a.db.hashes[x.h], a.db.Subs(x.h), CatalogOf(Add, a, a), skip)
    requires j <= |order| && Brought(producers, (order + [x])[j], f) && f !in skip
    ensures CopiedAt(copies + added, ForLast(at, added, order), j, f)
  {
    var at', all := ForLast(at, added, order), copies + added;
    if j < |order| {
      assert CopiedAt(copies, at, j, f);
      var i :| 0 <= i < |at| && at[i] == j && copies[i].f == f;
      assert at'[i] == j && all[i].f == f;
    } else {
      assert Cites(added, f);
      var i :| 0 <= i < |added| && added[i].f == f;
      assert at'[|copies| + i] == j && all[|copies| + i].f == f;
    }
  }

  /** What was due for an earlier hash was copied earlier. */
  lemma MadeBefore(copies: seq<Copy>, at: seq<nat>, order: seq<Handed>, producers: seq<ScanDb>, skip: set<ByteString>,
                   k: nat, f: ByteString, i: nat) returns (m: nat)
    requires Follows(copies, at, order, producers, skip) && i < |at| && k < at[i] && k < |order|
    requires Brought(producers, order[k], f) && f !in skip
    ensures m < i && copies[m].h == order[k].h && copies[m].id == order[k].p && copies[m].f == f
  {
    assert CopiedAt(copies, at, k, f);
    m :| 0 <= m < |at| && at[m] == k && copies[m].f == f;
    assert MadeFor(copies, at, m, order);
  }

  // ---------- the adders of the waiting producers ----------

  ghost predicate AdderOk(x: Pending, producers: seq<ScanDb>, dest: ImportDb, skip: set<ByteString>)
    reads x.adder.copier, dest
  {
    && x.p < |producers| && x.adder.a == producers[x.p]
    && x.adder.copier.id == x.p && x.adder.copier.dest == dest && x.adder.copier.preexisting == skip
    && x.adder.copier.Valid()
  }

  ghost predicate AddersOk(queue: seq<Pending>, producers: seq<ScanDb>, dest: ImportDb, skip: set<ByteString>)
    reads set x | x in queue :: x.adder.copier, dest
  {
    forall i :: 0 <= i < |queue| ==> AdderOk(queue[i], producers, dest, skip)
  }

  lemma {:induction false} CitedBeyond(copies: seq<Copy>, m: nat, n: nat, id: nat, f: ByteString)
    requires m <= n <= |copies| && forall i :: m <= i < n ==> copies[i].id != id
    ensures CitedBy(copies, n, id, f) <==> CitedBy(copies, m, id, f)
  {
    if m >= n {
    } else {
      CitedBeyond(copies, m, n - 1, id, f);
    }
  }

  lemma OthersUntouched(log: seq<Copy>, added: seq<Copy>, id: nat, f: ByteString)
    requires forall i :: 0 <= i < |added| ==> added[i].id != id
    ensures CitedBy(log + added, |log + added|, id, f) <==> CitedBy(log, |log|, id, f)
  {
    CitedBeyond(log + added, |log|, |log + added|, id, f);
    CitedPrefix(log, added, |log|, id, f);
  }

  /** The first producer's adder adds its hash; the others are not disturbed. */
  method Give(queue: seq<Pending>, producers: seq<ScanDb>, dest: ImportDb, ghost skip: set<ByteString>)
    returns (ghost added: seq<Copy>)
    requires queue != [] && AddersOk(queue, producers, dest, skip)
    requires forall i :: 1 <= i < |queue| ==> queue[i].p != queue[0].p
    requires queue[0].adder.a.Valid() && queue[0].adder.a.Found(queue[0].h)
    requires NamedFor(Add, queue[0].adder.a, queue[0].h, skip)
    modifies queue[0].adder.copier`processed, dest
    ensures AddersOk(queue[1..], producers, dest, skip) && AdderOk(queue[0], producers, dest, skip)
    ensures dest.Valid() && dest.log == old(dest.log) + added
    ensures var a, h := producers[queue[0].p], queue[0].h;
            CopiesOf(added, queue[0].p, h, a.db.hashes[h], a.db.Subs(h), CatalogOf(Add, a, a), skip)
  {
    var x := queue[0];
    assert AdderOk(x, producers, dest, skip);
    ghost var log := dest.log;
    added := x.adder.AddHash(x.h);
    forall i | 0 <= i < |added|
      ensures added[i].id == x.p
    {
      assert IsChosen(added[i], x.p, x.h, x.adder.a.db.hashes[x.h], x.adder.a.db.Subs(x.h),
                      CatalogOf(Add, x.adder.a, x.adder.a), skip);
    }
    forall i | 1 <= i < |queue|
      ensures AdderOk(queue[i], producers, dest, skip)
    {
      assert old(AdderOk(queue[i], producers, dest, skip));
      forall f {
        OthersUntouched(log, added, queue[i].p, f);
      }
    }
  }

  // ---------- the merge ----------

  ghost predicate Readable(producers: seq<ScanDb>) {
    forall p :: 0 <= p < |producers| ==> producers[p].Valid() && producers[p].hidden == {}
  }

  /** No adder comes to a new source without a name. */
  ghost predicate AllNamed(producers: seq<ScanDb>, skip: set<ByteString>) {
    forall p :: 0 <= p < |producers| ==> SetResults.AllNamed(Add, producers[p], skip)
  }

  /** Where the merge stands: who waits, what was handed on, what was copied. */
  ghost predicate Standing(queue: seq<Pending>, producers: seq<ScanDb>, pos: seq<nat>, order: seq<Handed>) {
    && Sorted(queue) && Ahead(queue, producers, pos) && AllWait(queue, producers, pos, |producers|)
    && InOrder(order) && Before(order, queue) && HandedAll(order, producers, pos)
    && Turns(queue, order, |producers|)
  }

  ghost function KeyAfter(producers: seq<ScanDb>, pos: seq<nat>, p: nat): ByteString
    requires p < |producers| == |pos|
  {
    if pos[p] + 1 < |producers[p].keys| then producers[p].keys[pos[p] + 1] else []
  }

  lemma KeyListed(a: ScanDb, k: nat)
    requires a.Valid() && k < |a.keys|
    ensures a.keys[k] in a.db.hashes && a.keys[k] != []
  {
    assert a.Sound(Listed) && a.Sound(Sourced) && a.HashOk(a.keys[k]);
  }

  /** The first producer's hash is gone, and the rest of the queue stands. */
  lemma Rest(queue: seq<Pending>, producers: seq<ScanDb>, pos: seq<nat>, order: seq<Handed>)
    requires queue != [] && Standing(queue, producers, pos, order)
    ensures var p := queue[0].p;
            var pos', order' := pos[p := pos[p] + 1], order + [Handed(queue[0].h, p)];
            && Sorted(queue[1..]) && Ahead(queue[1..], producers, pos') && !Waits(queue[1..], p)
            && InOrder(order') && Before(order', queue[1..]) && HandedAll(order', producers, pos')
            && (forall q :: 0 <= q < |producers| && q != p && pos'[q] < |producers[q].keys| ==> Waits(queue[1..], q))
            && Turns(queue[1..], order', |producers|)
  {
    TakeKeepsAhead(queue, producers, pos);
    TakeKeepsTurns(queue, order, |producers|);
    HandOn(order, queue);
    HandedMore(order, producers, pos, queue[0]);
  }

  lemma Depleted(queue: seq<Pending>, producers: seq<ScanDb>, pos: seq<nat>, order: seq<Handed>)
    requires Readable(producers) && queue != [] && Standing(queue, producers, pos, order)
    requires queue[0].p < |producers| && pos[queue[0].p] + 1 >= |producers[queue[0].p].keys|
    ensures Standing(queue[1..], producers, pos[queue[0].p := pos[queue[0].p] + 1],
                     order + [Handed(queue[0].h, queue[0].p)])
  {
    Rest(queue, producers, pos, order);
  }

  lemma NextIsLater(queue: seq<Pending>, producers: seq<ScanDb>, pos: seq<nat>, order: seq<Handed>)
    requires Readable(producers) && queue != [] && Standing(queue, producers, pos, order)
    requires queue[0].p < |producers| && pos[queue[0].p] + 1 < |producers[queue[0].p].keys|
    ensures var h, order' := KeyAfter(producers, pos, queue[0].p), order + [Handed(queue[0].h, queue[0].p)];
            forall i :: 0 <= i < |order'| ==> NotAfter(order'[i].h, h)
  {
    var p := queue[0].p;
    assert IsNext(queue[0], producers, pos);
    producers[p].KeysInOrder(pos[p], pos[p] + 1);
    HandOn(order, queue);
  }

  lemma Enqueued(queue: seq<Pending>, producers: seq<ScanDb>, pos: seq<nat>, order: seq<Handed>, x: Pending, k: nat)
    requires Readable(producers) && queue != [] && Standing(queue, producers, pos, order)
    requires x.p == queue[0].p < |producers| && pos[x.p] + 1 < |producers[x.p].keys|
             && x.h == KeyAfter(producers, pos, x.p)
    requires k <= |queue[1..]| && Sorted(InsertedAt(queue[1..], x, k))
    requires forall j :: k <= j < |queue[1..]| ==> LexLess(x.h, queue[1..][j].h)
    ensures Standing(InsertedAt(queue[1..], x, k), producers, pos[x.p := pos[x.p] + 1],
                     order + [Handed(queue[0].h, x.p)])
  {
    Rest(queue, producers, pos, order);
    NextIsLater(queue, producers, pos, order);
    InsertKeepsAhead(queue[1..], producers, pos[x.p := pos[x.p] + 1], x, k);
    InsertKeepsBefore(order + [Handed(queue[0].h, x.p)], queue[1..], x, k);
    LexIrreflexive(x.h);
    assert forall i :: 0 <= i < |queue[1..]| ==> queue[1..][i].p != x.p;
    InsertKeepsTurns(queue[1..], order + [Handed(queue[0].h, x.p)], |producers|, x, k);
  }

  method Requeue(queue: seq<Pending>, producers: seq<ScanDb>, h: ByteString, ghost pos: seq<nat>,
                 ghost order: seq<Handed>)
    returns (next: seq<Pending>)
    requires Readable(producers) && queue != [] && Standing(queue, producers, pos, order)
    requires queue[0].p < |producers| && h == KeyAfter(producers, pos, queue[0].p)
    ensures Standing(next, producers, pos[queue[0].p := pos[queue[0].p] + 1], order + [Handed(queue[0].h, queue[0].p)])
    ensures forall x :: x in next ==> x in queue[1..] || (x.p == queue[0].p && x.adder == queue[0].adder)
  {
    var p := queue[0].p;
    if pos[p] + 1 < |producers[p].keys| {
      KeyListed(producers[p], pos[p] + 1);
    }
    next := queue[1..];
    if |h| != 0 {
      var x := Pending(h, p, queue[0].adder);
      ghost var k;
      Rest(queue, producers, pos, order);
      next, k := Insert(queue[1..], x);
      Enqueued(queue, producers, pos, order, x, k);
    } else {
      Depleted(queue, producers, pos, order);
    }
  }

  method GiveNext(queue: seq<Pending>, producers: seq<ScanDb>, dest: ImportDb, ghost skip: set<ByteString>,
                  ghost pos: seq<nat>)
    returns (ghost added: seq<Copy>)
    requires Readable(producers) && AllNamed(producers, skip) && queue != [] && Ahead(queue, producers, pos)
    requires AddersOk(queue, producers, dest, skip) && LogOk(dest.log, producers, pos, skip)
    requires queue[0].p < |producers| && queue[0].h in producers[queue[0].p].db.hashes
    modifies queue[0].adder.copier`processed, dest
    ensures AddersOk(queue[1..], producers, dest, skip) && AdderOk(queue[0], producers, dest, skip)
    ensures dest.Valid() && dest.log == old(dest.log) + added
    ensures LogOk(dest.log, producers, pos[queue[0].p := pos[queue[0].p] + 1], skip)
    ensures var a, h := producers[queue[0].p], queue[0].h;
            CopiesOf(added, queue[0].p, h, a.db.hashes[h], a.db.Subs(h), CatalogOf(Add, a, a), skip)
  {
    assert AdderOk(queue[0], producers, dest, skip);
    ghost var log := dest.log;
    added := Give(queue, producers, dest, skip);
    LogMore(log, added, producers, pos, skip, queue[0]);
  }

  /** One round of the loop: the first hash is added and its producer, if it has another
      hash, is enqueued again. */
  method Round(queue: seq<Pending>, producers: seq<ScanDb>, dest: ImportDb, ghost skip: set<ByteString>,
               ghost pos: seq<nat>, ghost order: seq<Handed>)
    returns (next: seq<Pending>, ghost added: seq<Copy>)
    requires Readable(producers) && queue != [] && Standing(queue, producers, pos, order)
    requires AddersOk(queue, producers, dest, skip) && LogOk(dest.log, producers, pos, skip)
    requires AllNamed(producers, skip)
    modifies queue[0].adder.copier`processed, dest
    ensures queue[0].p < |producers| == |pos| && queue[0].h in producers[queue[0].p].db.hashes
    ensures dest.log == old(dest.log) + added
    ensures var a, h := producers[queue[0].p], queue[0].h;
            CopiesOf(added, queue[0].p, h, a.db.hashes[h], a.db.Subs(h), CatalogOf(Add, a, a), skip)
    ensures var p := queue[0].p;
            && Standing(next, producers, pos[p := pos[p] + 1], order + [Handed(queue[0].h, p)])
            && LogOk(dest.log, producers, pos[p := pos[p] + 1], skip)
    ensures AddersOk(next, producers, dest, skip) && dest.Valid()
    ensures forall x :: x in next ==> x in queue[1..] || (x.p == queue[0].p && x.adder == queue[0].adder)
  {
    var x := queue[0];
    assert IsNext(x, producers, pos) && AdderOk(x, producers, dest, skip);
    KeyListed(producers[x.p], pos[x.p]);
    added := GiveNext(queue, producers, dest, skip, pos);
    var h := x.adder.a.NextHash(x.h, pos[x.p]);
    next := Requeue(queue, producers, h, pos, order);
    AddersStay(queue, next, producers, dest, skip);
  }

  lemma AddersStay(queue: seq<Pending>, next: seq<Pending>, producers: seq<ScanDb>, dest: ImportDb,
                   skip: set<ByteString>)
    requires queue != [] && AddersOk(queue[1..], producers, dest, skip) && AdderOk(queue[0], producers, dest, skip)
    requires forall x :: x in next ==> x in queue[1..] || (x.p == queue[0].p && x.adder == queue[0].adder)
    ensures AddersOk(next, producers, dest, skip)
  {
    forall i | 0 <= i < |next|
      ensures AdderOk(next[i], producers, dest, skip)
    {
      var x := next[i];
      assert x in next;
      if x in queue[1..] {
        var k :| 0 <= k < |queue[1..]| && queue[1..][k] == x;
        assert AdderOk(queue[1..][k], producers, dest, skip);
      }
    }
  }

  function Start(n: nat): (pos: seq<nat>)
    ensures |pos| == n && forall p :: 0 <= p < n ==> pos[p] == 0
  {
    seq(n, _ => 0)
  }

  /** The producers that are not empty, by their first hashes, each with its adder. */
  method Open(producers: seq<ScanDb>, dest: ImportDb) returns (queue: seq<Pending>)
    requires Readable(producers) && dest.Valid() && dest.log == []
    ensures Standing(queue, producers, Start(|producers|), []) && AddersOk(queue, producers, dest, dest.db.data.Keys)
    ensures forall x :: x in queue ==> fresh(x.adder.copier)
  {
    queue := [];
    for p := 0 to |producers|
      invariant Sorted(queue) && Ahead(queue, producers, Start(|producers|))
      invariant AllWait(queue, producers, Start(|producers|), p) && forall x :: x in queue ==> x.p < p
      invariant Turns(queue, [], |producers|)
      invariant AddersOk(queue, producers, dest, dest.db.data.Keys)
      invariant forall x :: x in queue ==> fresh(x.adder.copier)
    {
      if |producers[p].keys| > 0 {
        KeyListed(producers[p], 0);
      }
      var h := producers[p].FirstHash();
      if |h| != 0 {
        var copier := new Copier(p, dest);
        var adder := new Adder(producers[p], [], copier);
        queue := Enqueue(queue, producers, Pending(h, p, adder), dest, p);
      }
    }
    assert Before([], queue) && InOrder([]);
    forall p | 0 <= p < |producers|
      ensures Of([], 0, p) == producers[p].keys[..Start(|producers|)[p]]
    {
    }
  }

  method Enqueue(queue: seq<Pending>, producers: seq<ScanDb>, x: Pending, dest: ImportDb, ghost p: nat)
    returns (next: seq<Pending>)
    requires Sorted(queue) && Ahead(queue, producers, Start(|producers|)) && p < |producers| && x.p == p
    requires AllWait(queue, producers, Start(|producers|), p) && forall y :: y in queue ==> y.p < p
    requires Turns(queue, [], |producers|)
    requires |producers[p].keys| > 0 && x.h == producers[p].keys[0]
    requires AddersOk(queue, producers, dest, dest.db.data.Keys) && AdderOk(x, producers, dest, dest.db.data.Keys)
    ensures Sorted(next) && Ahead(next, producers, Start(|producers|))
    ensures AllWait(next, producers, Start(|producers|), p + 1) && Turns(next, [], |producers|)
    ensures AddersOk(next, producers, dest, dest.db.data.Keys)
    ensures forall y :: y in next ==> y == x || y in queue
  {
    assert !Waits(queue, p);
    ghost var k;
    next, k := Insert(queue, x);
    FirstTurns(queue, |producers|, x, k);
    InsertKeepsAhead(queue, producers, Start(|producers|), x, k);
    AddersWith(queue, x, k, producers, dest, dest.db.data.Keys);
  }

  lemma FirstTurns(queue: seq<Pending>, n: nat, x: Pending, k: nat)
    requires Turns(queue, [], n) && k <= |queue| && x.p < n && forall y :: y in queue ==> y.p < x.p
    requires forall j :: k <= j < |queue| ==> LexLess(x.h, queue[j].h)
    ensures Turns(InsertedAt(queue, x, k), [], n)
  {
    LexIrreflexive(x.h);
    assert forall i :: 0 <= i < |queue| ==> queue[i] in queue;
    InsertedTurns(queue, [], n, x, k);
  }

  lemma AddersWith(queue: seq<Pending>, x: Pending, k: nat, producers: seq<ScanDb>, dest: ImportDb,
                   skip: set<ByteString>)
    requires k <= |queue| && AddersOk(queue, producers, dest, skip) && AdderOk(x, producers, dest, skip)
    ensures AddersOk(InsertedAt(queue, x, k), producers, dest, skip)
  {
    PlacesInserted(queue, x, k);
  }

  /** The whole state of the merge. */
  ghost predicate MergeAt(queue: seq<Pending>, producers: seq<ScanDb>, dest: ImportDb, skip: set<ByteString>,
                          pos: seq<nat>, order: seq<Handed>, at: seq<nat>)
    reads set x | x in queue :: x.adder.copier, dest
  {
    && Standing(queue, producers, pos, order) && AddersOk(queue, producers, dest, skip)
    && dest.Valid() && LogOk(dest.log, producers, pos, skip) && Follows(dest.log, at, order, producers, skip)
  }

  method MergeNext(queue: seq<Pending>, producers: seq<ScanDb>, dest: ImportDb, ghost skip: set<ByteString>,
                   ghost pos: seq<nat>, ghost order: seq<Handed>, ghost at: seq<nat>)
    returns (next: seq<Pending>, ghost pos': seq<nat>, ghost order': seq<Handed>, ghost at': seq<nat>)
    requires Readable(producers) && AllNamed(producers, skip)
    requires queue != [] && MergeAt(queue, producers, dest, skip, pos, order, at)
    modifies queue[0].adder.copier`processed, dest
    ensures MergeAt(next, producers, dest, skip, pos', order', at')
    ensures |pos'| == |pos| == |producers|
    ensures 0 <= HashesLeft(producers, pos', |producers|) < HashesLeft(producers, pos, |producers|)
    ensures forall x :: x in next ==> exists y :: y in queue && y.adder == x.adder
  {
    ghost var x := queue[0];
    assert IsNext(x, producers, pos);
    FewerLeft(producers, pos, |producers|, x.p);
    next, at' := RoundInOrder(queue, producers, dest, skip, pos, order, at);
    pos', order' := pos[x.p := pos[x.p] + 1], order + [Handed(x.h, x.p)];
    LeftNotNegative(producers, pos', |producers|);
    SameAdders(queue, next);
  }

  lemma SameAdders(queue: seq<Pending>, next: seq<Pending>)
    requires queue != []
    requires forall x :: x in next ==> x in queue[1..] || (x.p == queue[0].p && x.adder == queue[0].adder)
    ensures forall x :: x in next ==> exists y :: y in queue && y.adder == x.adder
  {
    assert queue[0] in queue;
  }

  method RoundInOrder(queue: seq<Pending>, producers: seq<ScanDb>, dest: ImportDb, ghost skip: set<ByteString>,
                      ghost pos: seq<nat>, ghost order: seq<Handed>, ghost at: seq<nat>)
    returns (next: seq<Pending>, ghost at': seq<nat>)
    requires Readable(producers) && AllNamed(producers, skip)
    requires queue != [] && MergeAt(queue, producers, dest, skip, pos, order, at)
    modifies queue[0].adder.copier`processed, dest
    ensures queue[0].p < |producers| == |pos|
    ensures var p := queue[0].p;
            MergeAt(next, producers, dest, skip, pos[p := pos[p] + 1], order + [Handed(queue[0].h, p)], at')
    ensures forall x :: x in next ==> x in queue[1..] || (x.p == queue[0].p && x.adder == queue[0].adder)
  {
    ghost var log := dest.log;
    ghost var added;
    next, added := Round(queue, producers, dest, skip, pos, order);
    at' := ForLast(at, added, order);
    FollowsMore(log, at, order, producers, skip, Handed(queue[0].h, queue[0].p), added);
  }

  /** add_multiple, up to validating directories: it ends, hands hashes on in order, each
      producer's every hash exactly once, and copies every source not known before, hash by
      hash in that order. */
  method AddAll(producers: seq<ScanDb>, dest: ImportDb) returns (ghost order: seq<Handed>, ghost at: seq<nat>)
    requires Readable(producers) && dest.Valid() && dest.log == [] && AllNamed(producers, dest.db.data.Keys)
    modifies dest
    ensures Complete(producers, order)
    ensures dest.Valid() && LogOk(dest.log, producers, Ends(producers), old(dest.db.data.Keys))
    ensures Follows(dest.log, at, order, producers, old(dest.db.data.Keys))
  {
    ghost var skip, pos := dest.db.data.Keys, Start(|producers|);
    order, at := [], [];
    var queue := Open(producers, dest);
    while queue != []
      invariant |pos| == |producers| && MergeAt(queue, producers, dest, skip, pos, order, at)
      invariant forall x :: x in queue ==> fresh(x.adder.copier)
      decreases HashesLeft(producers, pos, |producers|)
    {
      queue, pos, order, at := MergeNext(queue, producers, dest, skip, pos, order, at);
    }
    AllDone(producers, pos, order);
  }

  /** What is handed on is in order, equal hashes in turn, and is each producer's every hash
      exactly once. */
  ghost predicate Complete(producers: seq<ScanDb>, order: seq<Handed>) {
    InOrder(order) && InTurn(order, |producers|) && forall p :: 0 <= p < |producers| ==>
      Of(order, |order|, p) == producers[p].keys
  }

  ghost function Ends(producers: seq<ScanDb>): (pos: seq<nat>)
    ensures |pos| == |producers| && forall p :: 0 <= p < |producers| ==> pos[p] == |producers[p].keys|
  {
    seq(|producers|, p requires 0 <= p < |producers| => |producers[p].keys|)
  }

  lemma AllDone(producers: seq<ScanDb>, pos: seq<nat>, order: seq<Handed>)
    requires Standing([], producers, pos, order)
    ensures pos == Ends(producers)
    ensures forall p :: 0 <= p < |producers| ==> Of(order, |order|, p) == producers[p].keys
  {
    forall p | 0 <= p < |producers|
      ensures pos[p] == |producers[p].keys| && Of(order, |order|, p) == producers[p].keys
    {
      assert !Waits([], p);
      assert producers[p].keys[..|producers[p].keys|] == producers[p].keys;
    }
  }

  // ---------- what it leaves ----------

  ghost predicate Has(a: ScanDb, h: ByteString, f: ByteString) {
    f in a.db.Subs(h)
  }

  /** Some producer has source f for hash h, and the destination did not know f. */
  ghost predicate Brings(producers: seq<ScanDb>, start: Db, h: ByteString, f: ByteString) {
    f !in start.data && exists p :: 0 <= p < |producers| && Has(producers[p], h, f)
  }

  /** The destination's pairs are its old ones united with all producers' pairs whose
      source it did not know; a new pair has the sub-count that some producer gave. */
  lemma PairsUnited(producers: seq<ScanDb>, start: Db, copies: seq<Copy>, h: ByteString, f: ByteString)
    requires Readable(producers) && LogOk(copies, producers, Ends(producers), start.data.Keys)
    requires forall g, s :: s in start.Subs(g) ==> s in start.data
    ensures var now := Lookup(AfterCopies(start, copies, |copies|).db.Subs(h), f);
            && (now.Some? <==> f in start.Subs(h) || Brings(producers, start, h, f))
            && (f in start.Subs(h) ==> now.value == start.Subs(h)[f])
            && (now.Some? && f !in start.Subs(h) ==>
                  exists p :: 0 <= p < |producers| && Has(producers[p], h, f)
                    && now.value == producers[p].db.Subs(h)[f])
  {
    SubIsFollowed(start, copies, |copies|, h, f);
    SubsOfCopies(start, copies, |copies|, h, f);
    BroughtIsCopied(producers, start, copies, h, f);
    if f !in start.Subs(h) && CitesFor(copies, |copies|, h, f) {
      var i :| 0 <= i < |copies| && copies[i].h == h && copies[i].f == f
               && SubOf(start, copies, |copies|, h, f) == Some(Clip2(copies[i].subCount));
      assert CopyFrom(copies[i], producers, start.data.Keys);
      SourceKnown(producers[copies[i].id], h, f);
      assert Has(producers[copies[i].id], h, f);
    }
  }

  lemma BroughtIsCopied(producers: seq<ScanDb>, start: Db, copies: seq<Copy>, h: ByteString, f: ByteString)
    requires Readable(producers) && LogOk(copies, producers, Ends(producers), start.data.Keys)
    ensures CitesFor(copies, |copies|, h, f) <==> Brings(producers, start, h, f)
  {
    if CitesFor(copies, |copies|, h, f) {
      var i :| 0 <= i < |copies| && copies[i].h == h && copies[i].f == f;
      CopyIsBrought(producers, start, copies, i);
    }
    if Brings(producers, start, h, f) {
      var p: nat :| p < |producers| && Has(producers[p], h, f);
      var i := CopiedBy(producers, start, copies, h, f, p);
    }
  }

  lemma CopyIsBrought(producers: seq<ScanDb>, start: Db, copies: seq<Copy>, i: nat)
    requires LogOk(copies, producers, Ends(producers), start.data.Keys) && i < |copies|
    ensures Brings(producers, start, copies[i].h, copies[i].f)
  {
    assert CopyFrom(copies[i], producers, start.data.Keys);
    assert Has(producers[copies[i].id], copies[i].h, copies[i].f);
  }

  /** What producer p brings is copied by producer p's own adder. */
  lemma CopiedBy(producers: seq<ScanDb>, start: Db, copies: seq<Copy>, h: ByteString, f: ByteString, p: nat)
    returns (i: nat)
    requires Readable(producers) && LogOk(copies, producers, Ends(producers), start.data.Keys)
    requires p < |producers| && Has(producers[p], h, f) && f !in start.data
    ensures i < |copies| && copies[i].h == h && copies[i].f == f && copies[i].id == p
  {
    assert producers[p].Sound(Listed);
    var k: nat :| k < |producers[p].keys| && producers[p].keys[k] == h;
    assert Given(producers, Ends(producers), p, k, f);
    assert CopiedFor(copies, p, h, f);
    i :| 0 <= i < |copies| && copies[i].h == h && copies[i].f == f && copies[i].id == p;
  }

  lemma CopiesConsistent(producers: seq<ScanDb>, skip: set<ByteString>, copies: seq<Copy>)
    requires LogOk(copies, producers, Ends(producers), skip)
    ensures Consistent(copies)
  {
    forall i, j | 0 <= i < |copies| && 0 <= j < |copies| && copies[i].id == copies[j].id && copies[i].f == copies[j].f
      ensures copies[i].info == copies[j].info && copies[i].names == copies[j].names
    {
      assert CopyFrom(copies[i], producers, skip) && CopyFrom(copies[j], producers, skip);
    }
  }

  /** Some producer brings the source and knows this name of it. */
  ghost predicate BringsName(producers: seq<ScanDb>, start: Db, f: ByteString, name: Name) {
    f !in start.data && exists p :: 0 <= p < |producers| && Names(producers[p], f, name)
  }

  ghost predicate Names(a: ScanDb, f: ByteString, name: Name) {
    name in a.db.Names(f) && exists h :: Has(a, h, f)
  }

  ghost predicate CarriesName(copies: seq<Copy>, f: ByteString, name: Name) {
    exists i :: 0 <= i < |copies| && copies[i].f == f && name in copies[i].names
  }

  lemma NameIsCarried(producers: seq<ScanDb>, start: Db, copies: seq<Copy>, f: ByteString, name: Name)
    requires Readable(producers) && LogOk(copies, producers, Ends(producers), start.data.Keys)
    ensures CarriesName(copies, f, name) <==> BringsName(producers, start, f, name)
  {
    if CarriesName(copies, f, name) {
      var i :| 0 <= i < |copies| && copies[i].f == f && name in copies[i].names;
      assert CopyFrom(copies[i], producers, start.data.Keys);
      assert Has(producers[copies[i].id], copies[i].h, f);
      assert Names(producers[copies[i].id], f, name);
    }
    if BringsName(producers, start, f, name) {
      var p: nat :| p < |producers| && Names(producers[p], f, name);
      var h :| Has(producers[p], h, f);
      var i := CopiedBy(producers, start, copies, h, f, p);
      assert CopyFrom(copies[i], producers, start.data.Keys);
    }
  }

  /** A source gets the names of every producer that brings it, beside those it had. */
  lemma NamesUnited(producers: seq<ScanDb>, start: Db, copies: seq<Copy>, f: ByteString, name: Name)
    requires Readable(producers) && LogOk(copies, producers, Ends(producers), start.data.Keys)
    ensures name in AfterCopies(start, copies, |copies|).db.Names(f) <==>
              name in start.Names(f) || BringsName(producers, start, f, name)
  {
    CopiesConsistent(producers, start.data.Keys, copies);
    NameIsFollowed(start, copies, |copies|, f, name);
    NamesOfCopies(start, copies, |copies|, f, name);
    NameIsCarried(producers, start, copies, f, name);
  }

  // ---------- whose word counts ----------

  /** What is handed on at j is the first to bring this source for this hash. */
  ghost predicate FirstBringing(producers: seq<ScanDb>, order: seq<Handed>, j: nat, h: ByteString, f: ByteString) {
    && j < |order| && order[j].h == h && Brought(producers, order[j], f)
    && (forall k :: 0 <= k < j ==> !(order[k].h == h && Brought(producers, order[k], f)))
  }

  ghost predicate FirstGives(producers: seq<ScanDb>, order: seq<Handed>, h: ByteString, f: ByteString, c: nat) {
    exists j: nat :: FirstBringing(producers, order, j, h, f) && c == producers[order[j].p].db.Subs(h)[f]
  }

  /** A new pair has the sub-count of the first producer to hand it on. */
  lemma FirstWins(producers: seq<ScanDb>, start: Db, copies: seq<Copy>, at: seq<nat>, order: seq<Handed>,
                  h: ByteString, f: ByteString)
    requires Readable(producers) && LogOk(copies, producers, Ends(producers), start.data.Keys)
    requires Follows(copies, at, order, producers, start.data.Keys)
    requires f !in start.Subs(h) && Brings(producers, start, h, f)
    ensures var now := Lookup(AfterCopies(start, copies, |copies|).db.Subs(h), f);
            now.Some? && FirstGives(producers, order, h, f, now.value)
  {
    SubIsFollowed(start, copies, |copies|, h, f);
    BroughtIsCopied(producers, start, copies, h, f);
    var i := SubIsFirst(start, copies, |copies|, h, f);
    assert CopyFrom(copies[i], producers, start.data.Keys) && MadeFor(copies, at, i, order);
    SourceKnown(producers[copies[i].id], h, f);
    forall k | 0 <= k < at[i]
      ensures !(order[k].h == h && Brought(producers, order[k], f))
    {
      if order[k].h == h && Brought(producers, order[k], f) {
        var m := MadeBefore(copies, at, order, producers, start.data.Keys, k, f, i);
      }
    }
    assert FirstBringing(producers, order, at[i], h, f);
  }

  // ---------- the first hashes of several producers ----------

  lemma {:induction false} FirstOf(order: seq<Handed>, n: nat, p: nat) returns (i: nat)
    requires n <= |order| && Of(order, n, p) != []
    ensures i < n && order[i] == Handed(Of(order, n, p)[0], p) && forall j :: 0 <= j < i ==> order[j].p != p
  {
    if Of(order, n - 1, p) != [] {
      i := FirstOf(order, n - 1, p);
    } else {
      NoneOf(order, n - 1, p);
      i := n - 1;
    }
  }

  lemma {:induction false} NoneOf(order: seq<Handed>, n: nat, p: nat)
    requires n <= |order| && Of(order, n, p) == []
    ensures forall j :: 0 <= j < n ==> order[j].p != p
  {
    if n == 0 {
    } else {
      NoneOf(order, n - 1, p);
    }
  }

  /** An entry of before the first round is for the producer's first hash. */
  lemma {:induction false} SinceStart(order: seq<Handed>, i: nat, p: nat, n: nat)
    requires i <= |order|
    ensures Since(order, i, p, n) < 0 ==> Since(order, i, p, n) == p - n && Of(order, i, p) == []
    ensures Of(order, i, p) == [] ==> Since(order, i, p, n) == p - n
  {
    if i == 0 {
    } else {
      SinceStart(order, i - 1, p, n);
    }
  }

  /** What is handed on with a producer's first hash, or before it with the same hash, is the
      first hash of that or of a lower-numbered producer. */
  lemma FirstHashesInTurn(producers: seq<ScanDb>, order: seq<Handed>, p: nat, h: ByteString) returns (i: nat)
    requires Complete(producers, order) && p < |producers| && producers[p].keys != [] && producers[p].keys[0] == h
    ensures i < |order| && order[i] == Handed(h, p)
    ensures forall j :: 0 <= j < i && order[j].h == h && order[j].p < |producers| ==>
                          var q := order[j].p; q < p && producers[q].keys != [] && producers[q].keys[0] == h
  {
    i := FirstOf(order, |order|, p);
    NoneBefore(order, i, p);
    SinceStart(order, i, p, |producers|);
    forall j | 0 <= j < i && order[j].h == h && order[j].p < |producers|
      ensures var q := order[j].p; q < p && producers[q].keys != [] && producers[q].keys[0] == h
    {
      var q := order[j].p;
      SinceStart(order, j, q, |producers|);
      OfStarts(order, j, |order|, q);
    }
  }

  lemma {:induction false} NoneBefore(order: seq<Handed>, i: nat, p: nat)
    requires i <= |order| && forall j :: 0 <= j < i ==> order[j].p != p
    ensures Of(order, i, p) == []
  {
    if i == 0 {
    } else {
      NoneBefore(order, i - 1, p);
    }
  }

  lemma {:induction false} OfStarts(order: seq<Handed>, j: nat, n: nat, p: nat)
    requires j < n <= |order| && order[j].p == p && Of(order, j, p) == []
    ensures Of(order, n, p) != [] && Of(order, n, p)[0] == order[j].h
  {
    if n == j + 1 {
    } else {
      OfStarts(order, j, n - 1, p);
    }
  }

  /** Producer p starts with hash h and has source f for it. */
  ghost predicate StartsWith(producers: seq<ScanDb>, p: nat, h: ByteString, f: ByteString) {
    p < |producers| && producers[p].keys != [] && producers[p].keys[0] == h && f in producers[p].db.Subs(h)
  }

  ghost predicate LowestStart(producers: seq<ScanDb>, p: nat, h: ByteString, f: ByteString) {
    StartsWith(producers, p, h, f) && forall q :: 0 <= q < p ==> !StartsWith(producers, q, h, f)
  }

  lemma LowestIsFirst(producers: seq<ScanDb>, order: seq<Handed>, h: ByteString, f: ByteString, p: nat, j: nat)
    requires Complete(producers, order) && LowestStart(producers, p, h, f)
    requires FirstBringing(producers, order, j, h, f)
    ensures order[j].p == p
  {
    var i := FirstHashesInTurn(producers, order, p, h);
    assert Brought(producers, order[i], f);
    if j < i {
      assert StartsWith(producers, order[j].p, h, f);
    }
  }

  /** When a hash is the first one of several producers that have the source, the sub-count
      is that of the lowest-numbered one of them. */
  lemma LowestGives(producers: seq<ScanDb>, start: Db, copies: seq<Copy>, at: seq<nat>, order: seq<Handed>,
                    h: ByteString, f: ByteString, p: nat)
    requires Readable(producers) && LogOk(copies, producers, Ends(producers), start.data.Keys)
    requires Follows(copies, at, order, producers, start.data.Keys) && Complete(producers, order)
    requires f !in start.Subs(h) && f !in start.data
    requires LowestStart(producers, p, h, f)
    ensures Lookup(AfterCopies(start, copies, |copies|).db.Subs(h), f) == Some(producers[p].db.Subs(h)[f])
  {
    assert Has(producers[p], h, f);
    FirstWins(producers, start, copies, at, order, h, f);
    var c := Lookup(AfterCopies(start, copies, |copies|).db.Subs(h), f).value;
    var j: nat :| FirstBringing(producers, order, j, h, f) && c == producers[order[j].p].db.Subs(h)[f];
    LowestIsFirst(producers, order, h, f, p, j);
  }

  /** What is handed on at j is the first with a source that the destination did not know. */
  ghost predicate FirstNew(producers: seq<ScanDb>, start: Db, order: seq<Handed>, j: nat, h: ByteString) {
    && j < |order| && order[j].h == h && BringsNew(producers, start, order[j])
    && (forall k :: 0 <= k < j && order[k].h == h ==> !BringsNew(producers, start, order[k]))
  }

  ghost predicate BringsNew(producers: seq<ScanDb>, start: Db, x: Handed) {
    exists f :: f !in start.data && Brought(producers, x, f)
  }

  /** A hash that was there keeps its entropy and label; a new one has those of the first
      producer to hand it on with a new source. */
  lemma HeadsUnited(producers: seq<ScanDb>, start: Db, copies: seq<Copy>, at: seq<nat>, order: seq<Handed>,
                    h: ByteString)
    requires Readable(producers) && LogOk(copies, producers, Ends(producers), start.data.Keys)
    requires Follows(copies, at, order, producers, start.data.Keys)
    ensures var now := Head(AfterCopies(start, copies, |copies|).db, h);
            if h in start.hashes || !exists f :: Brings(producers, start, h, f) then now == Head(start, h)
            else exists j: nat :: FirstNew(producers, start, order, j, h) && now == Head(producers[order[j].p].db, h)
  {
    HeadIsFollowed(start, copies, |copies|, h);
    var i := HeadIsFirst(start, copies, |copies|, h);
    NewHashIsCited(producers, start, copies, h);
    if h !in start.hashes && CitesHash(copies, |copies|, h) {
      FirstNewAt(producers, start, copies, at, order, h, i);
      assert CopyFrom(copies[i], producers, start.data.Keys);
      SetResults.ShortLabel(producers[copies[i].id], h);
    }
  }

  /** The same for the entropy and label of a hash that was not there: they are those of the
      lowest-numbered of the producers that start with it and bring a new source. */
  lemma LowestHeads(producers: seq<ScanDb>, start: Db, copies: seq<Copy>, at: seq<nat>, order: seq<Handed>,
                    h: ByteString, f: ByteString, p: nat)
    requires Readable(producers) && LogOk(copies, producers, Ends(producers), start.data.Keys)
    requires Follows(copies, at, order, producers, start.data.Keys) && Complete(producers, order)
    requires h !in start.hashes && f !in start.data && StartsWith(producers, p, h, f)
    requires forall q, g :: 0 <= q < p && g !in start.data ==> !StartsWith(producers, q, h, g)
    ensures Head(AfterCopies(start, copies, |copies|).db, h) == Head(producers[p].db, h)
  {
    assert Has(producers[p], h, f) && Brings(producers, start, h, f);
    HeadsUnited(producers, start, copies, at, order, h);
    var now := Head(AfterCopies(start, copies, |copies|).db, h);
    var j: nat :| FirstNew(producers, start, order, j, h) && now == Head(producers[order[j].p].db, h);
    var i := FirstHashesInTurn(producers, order, p, h);
    assert Brought(producers, order[i], f) && BringsNew(producers, start, order[i]);
    if j < i {
      var g :| g !in start.data && Brought(producers, order[j], g);
      assert StartsWith(producers, order[j].p, h, g);
    }
  }

  lemma NewHashIsCited(producers: seq<ScanDb>, start: Db, copies: seq<Copy>, h: ByteString)
    requires Readable(producers) && LogOk(copies, producers, Ends(producers), start.data.Keys)
    ensures (exists f :: Brings(producers, start, h, f)) <==> CitesHash(copies, |copies|, h)
  {
    forall f
      ensures Brings(producers, start, h, f) ==> CitesHash(copies, |copies|, h)
    {
      BroughtIsCopied(producers, start, copies, h, f);
    }
    if CitesHash(copies, |copies|, h) {
      var i :| 0 <= i < |copies| && copies[i].h == h;
      BroughtIsCopied(producers, start, copies, h, copies[i].f);
    }
  }

  lemma FirstNewAt(producers: seq<ScanDb>, start: Db, copies: seq<Copy>, at: seq<nat>, order: seq<Handed>,
                   h: ByteString, i: nat)
    requires LogOk(copies, producers, Ends(producers), start.data.Keys)
    requires Follows(copies, at, order, producers, start.data.Keys)
    requires i < |copies| && copies[i].h == h && !CitesHash(copies, i, h)
    ensures FirstNew(producers, start, order, at[i], h) && order[at[i]].p == copies[i].id
  {
    assert CopyFrom(copies[i], producers, start.data.Keys) && MadeFor(copies, at, i, order);
    assert Brought(producers, order[at[i]], copies[i].f);
    forall k | 0 <= k < at[i] && order[k].h == h
      ensures !BringsNew(producers, start, order[k])
    {
      if BringsNew(producers, start, order[k]) {
        var f :| f !in start.data && Brought(producers, order[k], f);
        var m := MadeBefore(copies, at, order, producers, start.data.Keys, k, f, i);
      }
    }
  }

  /** What is handed on at j is the first of its producer's hashes that has the source. */
  ghost predicate Meets(producers: seq<ScanDb>, order: seq<Handed>, j: nat, f: ByteString) {
    && j < |order| && Brought(producers, order[j], f)
    && (forall k :: 0 <= k < j && order[k].p == order[j].p ==> !Brought(producers, order[k], f))
  }

  ghost predicate LastToMeet(producers: seq<ScanDb>, order: seq<Handed>, j: nat, f: ByteString) {
    Meets(producers, order, j, f) && forall k :: j < k < |order| ==> !Meets(producers, order, k, f)
  }

  /** A source that was brought has the data of the last producer to come to it; other data
      stays. */
  lemma DataUnited(producers: seq<ScanDb>, start: Db, copies: seq<Copy>, at: seq<nat>, order: seq<Handed>,
                   f: ByteString)
    requires Readable(producers) && LogOk(copies, producers, Ends(producers), start.data.Keys)
    requires Follows(copies, at, order, producers, start.data.Keys)
    ensures var now := Lookup(AfterCopies(start, copies, |copies|).db.data, f);
            if exists h :: Brings(producers, start, h, f) then
              exists j: nat :: LastToMeet(producers, order, j, f) && now == Lookup(producers[order[j].p].db.data, f)
            else now == Lookup(start.data, f)
  {
    DataIsFollowed(start, copies, |copies|, f);
    DataOfCopies(start, copies, |copies|, f);
    BroughtIsCited(producers, start, copies, f);
    if CitesSource(copies, |copies|, f) {
      var i := DataIsLastMet(start, copies, |copies|, f);
      assert CopyFrom(copies[i], producers, start.data.Keys) && MadeFor(copies, at, i, order);
      FirstMeeting(producers, start, copies, at, order, f, i);
      NoLaterMeeting(producers, start, copies, at, order, f, i);
      assert LastToMeet(producers, order, at[i], f);
    }
  }

  lemma BroughtIsCited(producers: seq<ScanDb>, start: Db, copies: seq<Copy>, f: ByteString)
    requires Readable(producers) && LogOk(copies, producers, Ends(producers), start.data.Keys)
    ensures (exists h :: Brings(producers, start, h, f)) <==> CitesSource(copies, |copies|, f)
  {
    CitedSomewhere(copies, |copies|, f);
    forall h
      ensures Brings(producers, start, h, f) ==> CitesSource(copies, |copies|, f)
    {
      BroughtIsCopied(producers, start, copies, h, f);
    }
    if CitesSource(copies, |copies|, f) {
      var i :| 0 <= i < |copies| && copies[i].f == f;
      BroughtIsCopied(producers, start, copies, copies[i].h, f);
    }
  }

  lemma FirstMeeting(producers: seq<ScanDb>, start: Db, copies: seq<Copy>, at: seq<nat>, order: seq<Handed>,
                     f: ByteString, i: nat)
    requires LogOk(copies, producers, Ends(producers), start.data.Keys)
    requires Follows(copies, at, order, producers, start.data.Keys)
    requires i < |copies| && copies[i].f == f && !CitedBy(copies, i, copies[i].id, f)
    ensures Meets(producers, order, at[i], f)
  {
    assert CopyFrom(copies[i], producers, start.data.Keys) && MadeFor(copies, at, i, order);
    forall k | 0 <= k < at[i] && order[k].p == order[at[i]].p
      ensures !Brought(producers, order[k], f)
    {
      if Brought(producers, order[k], f) {
        var m := MadeBefore(copies, at, order, producers, start.data.Keys, k, f, i);
        CitedFrom(copies, i, m);
      }
    }
  }

  lemma {:induction false} CitedFrom(copies: seq<Copy>, n: nat, m: nat)
    requires m < n <= |copies|
    ensures CitedBy(copies, n, copies[m].id, copies[m].f)
  {
    if m == n - 1 {
    } else {
      CitedFrom(copies, n - 1, m);
    }
  }

  lemma NoLaterMeeting(producers: seq<ScanDb>, start: Db, copies: seq<Copy>, at: seq<nat>, order: seq<Handed>,
                       f: ByteString, i: nat)
    requires LogOk(copies, producers, Ends(producers), start.data.Keys)
    requires Follows(copies, at, order, producers, start.data.Keys)
    requires i < |copies| && copies[i].f == f && f !in start.data
    requires forall k :: i < k < |copies| && copies[k].f == f ==> CitedBy(copies, k, copies[k].id, f)
    ensures forall k :: at[i] < k < |order| ==> !Meets(producers, order, k, f)
  {
    forall k | at[i] < k < |order| && Brought(producers, order[k], f)
      ensures !Meets(producers, order, k, f)
    {
      var before := MetBefore(producers, start, copies, at, order, f, i, k);
    }
  }

  lemma MetBefore(producers: seq<ScanDb>, start: Db, copies: seq<Copy>, at: seq<nat>, order: seq<Handed>,
                  f: ByteString, i: nat, k: nat) returns (before: nat)
    requires LogOk(copies, producers, Ends(producers), start.data.Keys)
    requires Follows(copies, at, order, producers, start.data.Keys)
    requires i < |copies| && copies[i].f == f && f !in start.data
    requires forall k :: i < k < |copies| && copies[k].f == f ==> CitedBy(copies, k, copies[k].id, f)
    requires at[i] < k < |order| && Brought(producers, order[k], f)
    ensures before < k && order[before].p == order[k].p && Brought(producers, order[before], f)
  {
    var first := FirstMadeFor(copies, at, order, producers, start.data.Keys, k, f);
    assert i < first;
    var c := CitedAt(copies, first, copies[first].id, f);
    CopyBrought(producers, start, copies, at, order, c);
    before := at[c];
    assert before != k;
  }

  lemma FirstMadeFor(copies: seq<Copy>, at: seq<nat>, order: seq<Handed>, producers: seq<ScanDb>,
                     skip: set<ByteString>, k: nat, f: ByteString) returns (first: nat)
    requires Follows(copies, at, order, producers, skip)
    requires k < |order| && Brought(producers, order[k], f) && f !in skip
    ensures first < |at| && at[first] == k && copies[first].f == f && copies[first].id == order[k].p
    ensures forall j :: 0 <= j < first ==> at[j] <= k && !(at[j] == k && copies[j].f == f)
    ensures forall j :: first <= j < |at| ==> k <= at[j]
  {
    assert CopiedAt(copies, at, k, f);
    var m :| 0 <= m < |at| && at[m] == k && copies[m].f == f;
    first := FirstAt(copies, at, k, f, m);
    assert MadeFor(copies, at, first, order);
  }

  lemma CopyBrought(producers: seq<ScanDb>, start: Db, copies: seq<Copy>, at: seq<nat>, order: seq<Handed>, c: nat)
    requires LogOk(copies, producers, Ends(producers), start.data.Keys)
    requires Follows(copies, at, order, producers, start.data.Keys) && c < |copies|
    ensures at[c] < |order| && order[at[c]].p == copies[c].id && Brought(producers, order[at[c]], copies[c].f)
  {
    assert MadeFor(copies, at, c, order) && CopyFrom(copies[c], producers, start.data.Keys);
  }

  /** The first copy of the source that was made for what was handed on at j. */
  lemma {:induction false} FirstAt(copies: seq<Copy>, at: seq<nat>, j: nat, f: ByteString, m: nat) returns (i: nat)
    requires |copies| == |at| && m < |at| && at[m] == j && copies[m].f == f
    ensures i <= m && at[i] == j && copies[i].f == f
    ensures forall k :: 0 <= k < i ==> !(at[k] == j && copies[k].f == f)
  {
    if k :| 0 <= k < m && at[k] == j && copies[k].f == f {
      i := FirstAt(copies, at, j, f, k);
    } else {
      i := m;
    }
  }

  /** From an opened consumer to its final pairs: what was there stays, and a new pair has
      the sub-count of the first producer to hand it on. */
  method AddAllInto(producers: seq<ScanDb>, dest: ImportDb) returns (ghost order: seq<Handed>)
    requires Readable(producers) && dest.Valid() && dest.log == [] && dest.db == dest.start
    requires AllNamed(producers, dest.db.data.Keys)
    requires forall g, s :: s in dest.db.Subs(g) ==> s in dest.db.data
    modifies dest
    ensures Complete(producers, order)
    ensures forall h, f :: f in dest.db.Subs(h) <==> f in old(dest.db).Subs(h) || Brings(producers, old(dest.db), h, f)
    ensures forall h, f :: f in old(dest.db).Subs(h) ==> dest.db.Subs(h)[f] == old(dest.db).Subs(h)[f]
    ensures forall h, f :: f in dest.db.Subs(h) && f !in old(dest.db).Subs(h) ==>
                             FirstGives(producers, order, h, f, dest.db.Subs(h)[f])
    ensures forall h, f, p: nat :: f !in old(dest.db).data && LowestStart(producers, p, h, f) ==>
                                Lookup(dest.db.Subs(h), f) == Some(producers[p].db.Subs(h)[f])
  {
    ghost var start := dest.db;
    ghost var at;
    order, at := AddAll(producers, dest);
    assert Made(Seal, dest.start, dest.log, dest.db, dest.dataWrites);
    forall h, f
      ensures f in dest.db.Subs(h) <==> f in start.Subs(h) || Brings(producers, start, h, f)
      ensures f in start.Subs(h) ==> dest.db.Subs(h)[f] == start.Subs(h)[f]
      ensures f in dest.db.Subs(h) && f !in start.Subs(h) ==> FirstGives(producers, order, h, f, dest.db.Subs(h)[f])
    {
      PairsUnited(producers, start, dest.log, h, f);
      if f in dest.db.Subs(h) && f !in start.Subs(h) {
        FirstWins(producers, start, dest.log, at, order, h, f);
      }
    }
    forall h, f, p: nat | f !in start.data && LowestStart(producers, p, h, f)
      ensures Lookup(dest.db.Subs(h), f) == Some(producers[p].db.Subs(h)[f])
    {
      LowestGives(producers, start, dest.log, at, order, h, f, p);
    }
  }
}
