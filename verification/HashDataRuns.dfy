/** Whole runs of inserts and merges: what every hash's entry says about the calls
    that were made, and exactly when its count is what the format promises. */
module HashDataRuns {
  import opened ByteStrings
  import opened HashDataRecords
  import opened HashDataModel
  import opened MapSums
  import Lmdb

  datatype Op =
    | Insert(hash: ByteString, kEntropy: U64, blockLabel: ByteString, source: U64)
    | Merge(hash: ByteString, kEntropy: U64, blockLabel: ByteString, source: U64, subCount: U64)

  /** Source ids are positive, and hashes are not empty and no longer than a key may be:
      the store refuses others, or fails. */
  ghost predicate Accepted(ops: seq<Op>) {
    forall op :: op in ops ==> op.source > 0 && Lmdb.IsKey(op.hash)
  }

  /** One call on one hash. */
  function After(prev: Option<Entry>, op: Op): Entry {
    var l := Truncate(op.blockLabel);
    match op
    case Insert(_, k, _, s) => AfterInsert(prev, k, l, s)
    case Merge(_, k, _, s, c) => AfterMerge(prev, k, l, s, c)
  }

  /** The map after the first n calls, as Insert and Merge of the store change it. */
  function Run(ops: seq<Op>, n: nat): map<ByteString, Entry>
    requires n <= |ops|
  {
    if n == 0 then map[] else
      var m, op := Run(ops, n - 1), ops[n - 1];
      m[op.hash := After(Lookup(m, op.hash), op)]
  }

  /** What the map says of h, as a fold of the calls that name h. */
  function State(ops: seq<Op>, n: nat, h: ByteString): Option<Entry>
    requires n <= |ops|
  {
    if n == 0 then None
    else if ops[n - 1].hash == h then Some(After(State(ops, n - 1, h), ops[n - 1]))
    else State(ops, n - 1, h)
  }

  lemma {:induction false} StateOfRun(ops: seq<Op>, n: nat, h: ByteString)
    requires n <= |ops|
    ensures Lookup(Run(ops, n), h) == State(ops, n, h)
  {
    if n == 0 {
    } else {
      StateOfRun(ops, n - 1, h);
    }
  }

  lemma {:induction false} StateOk(ops: seq<Op>, n: nat, h: ByteString)
    requires n <= |ops| && Accepted(ops)
    ensures State(ops, n, h).Some? ==> State(ops, n, h).value.Ok()
  {
    if n == 0 {
    } else {
      StateOk(ops, n - 1, h);
      AfterOk(State(ops, n - 1, h), ops[n - 1]);
    }
  }

  lemma AfterOk(prev: Option<Entry>, op: Op)
    requires op.source > 0 && (prev.Some? ==> prev.value.Ok())
    ensures After(prev, op).Ok()
  {
    var l := Truncate(op.blockLabel);
    match op
    case Insert(_, k, _, s) => AfterInsertOk(prev, k, l, s);
    case Merge(_, k, _, s, c) => AfterMergeOk(prev, k, l, s, c);
  }

  // ---------- the ideal counts: no clipping, no four-byte field ----------

  predicate Cited(ops: seq<Op>, n: nat, h: ByteString, s: nat)
    requires n <= |ops|
  {
    exists i :: 0 <= i < n && ops[i].hash == h && ops[i].source == s
  }

  /** What call i adds to the ideal count of its own source: an insert one, and a
      merge its sub-count when the source is new to the hash. */
  function Weight(ops: seq<Op>, i: nat): nat
    requires i < |ops|
  {
    match ops[i]
    case Insert(_, _, _, _) => 1
    case Merge(h, _, _, s, c) => if Cited(ops, i, h, s) then 0 else c
  }

  /** How often source s was counted for hash h in the first n calls. */
  function Counted(ops: seq<Op>, n: nat, h: ByteString, s: nat): nat
    requires n <= |ops|
  {
    if n == 0 then 0
    else Counted(ops, n - 1, h, s)
         + (if ops[n - 1].hash == h && ops[n - 1].source == s then Weight(ops, n - 1) else 0)
  }

  /** The inserts of h plus the sub-counts of its effective merges. */
  function Total(ops: seq<Op>, n: nat, h: ByteString): nat
    requires n <= |ops|
  {
    if n == 0 then 0
    else Total(ops, n - 1, h) + (if ops[n - 1].hash == h then Weight(ops, n - 1) else 0)
  }

  /** One call's effect on the sub-count of source s, where was is its ideal count. */
  lemma SubCountAfter(prev: Option<Entry>, op: Op, s: nat, was: nat)
    requires prev.Some? && s in prev.value.subs ==> prev.value.subs[s] == Clip2(was)
    requires !(prev.Some? && s in prev.value.subs) ==> was == 0
    ensures var present := prev.Some? && s in prev.value.subs;
            var e := After(prev, op);
            && (s in e.subs <==> present || op.source == s)
            && (s in e.subs ==>
                  e.subs[s] == Clip2(if op.source != s then was else if op.Insert? then was + 1
                                     else if present then was else op.subCount))
  {
  }

  /** In every run a hash is present when some call named it, its sources are those
      the calls named, and each sub-count is the ideal one clipped at 65535. */
  lemma {:induction false} SubCountsOfRun(ops: seq<Op>, n: nat, h: ByteString, s: nat)
    requires n <= |ops|
    ensures State(ops, n, h).Some? <==> exists i :: 0 <= i < n && ops[i].hash == h
    ensures !Cited(ops, n, h, s) ==> Counted(ops, n, h, s) == 0
    ensures Cited(ops, n, h, s) <==> State(ops, n, h).Some? && s in State(ops, n, h).value.subs
    ensures Cited(ops, n, h, s) ==> State(ops, n, h).value.subs[s] == Clip2(Counted(ops, n, h, s))
  {
    if n == 0 {
    } else {
      SubCountsOfRun(ops, n - 1, h, s);
      if ops[n - 1].hash == h {
        SubCountAfter(State(ops, n - 1, h), ops[n - 1], s, Counted(ops, n - 1, h, s));
      }
    }
  }

  lemma FirstWriterAfter(prev: Option<Entry>, op: Op)
    ensures var e := After(prev, op);
            && e.kEntropy == (if prev.Some? then prev.value.kEntropy else op.kEntropy)
            && e.blockLabel == (if prev.Some? then prev.value.blockLabel else Truncate(op.blockLabel))
  {
  }

  /** The first call to name a hash fixes its entropy and label, of which ten bytes are kept. */
  lemma {:induction false} FirstWriterWins(ops: seq<Op>, n: nat, h: ByteString, i: nat)
    requires i < n <= |ops| && ops[i].hash == h
    requires forall j :: 0 <= j < i ==> ops[j].hash != h
    ensures State(ops, n, h).Some?
    ensures State(ops, n, h).value.kEntropy == ops[i].kEntropy
    ensures State(ops, n, h).value.blockLabel == Truncate(ops[i].blockLabel)
    ensures var given, kept := ops[i].blockLabel, State(ops, n, h).value.blockLabel;
            kept <= given && |kept| == if |given| <= 10 then |given| else 10
  {
    FirstWriterAfter(State(ops, n - 1, h), ops[n - 1]);
    if i < n - 1 {
      FirstWriterWins(ops, n - 1, h, i);
    } else {
      SubCountsOfRun(ops, i, h, 0);
    }
  }

  // ---------- what is counted of the calls ----------

  datatype Kind = Inserts | NewMerges | SameMerges | OtherData | OtherSubCounts

  ghost predicate IsFirst(ops: seq<Op>, i: nat, h: ByteString) {
    i < |ops| && ops[i].hash == h && forall j :: 0 <= j < i ==> ops[j].hash != h
  }

  /** Call i brings other data than the first one to name its hash. */
  ghost predicate DiffersFromFirst(ops: seq<Op>, i: nat)
    requires i < |ops|
  {
    exists j: nat :: j < i && IsFirst(ops, j, ops[i].hash)
      && (ops[i].kEntropy != ops[j].kEntropy || Truncate(ops[i].blockLabel) != Truncate(ops[j].blockLabel))
  }

  ghost predicate Falls(kind: Kind, ops: seq<Op>, i: nat)
    requires i < |ops|
  {
    var h, s := ops[i].hash, ops[i].source;
    match kind
    case Inserts => ops[i].Insert?
    case NewMerges => ops[i].Merge? && !Cited(ops, i, h, s)
    case SameMerges => ops[i].Merge? && Cited(ops, i, h, s)
    case OtherData => DiffersFromFirst(ops, i)
    case OtherSubCounts => ops[i].Merge? && Cited(ops, i, h, s) && ops[i].subCount != Clip2(Counted(ops, i, h, s))
  }

  ghost function OfKind(kind: Kind, ops: seq<Op>, n: nat): set<nat>
    requires n <= |ops|
  {
    set i: nat | i < n && Falls(kind, ops, i)
  }

  /** How many of the first n calls are of a kind. */
  ghost function Times(kind: Kind, ops: seq<Op>, n: nat): nat
    requires n <= |ops|
  {
    |OfKind(kind, ops, n)|
  }

  lemma OneMoreTime(kind: Kind, ops: seq<Op>, n: nat)
    requires n < |ops|
    ensures Times(kind, ops, n + 1) == Times(kind, ops, n) + (if Falls(kind, ops, n) then 1 else 0)
  {
    SetsGrow(OfKind(kind, ops, n), OfKind(kind, ops, n + 1), n, Falls(kind, ops, n));
  }

  lemma SetsGrow(before: set<nat>, after: set<nat>, n: nat, more: bool)
    requires n !in before && forall i :: i in after <==> i in before || (i == n && more)
    ensures |after| == |before| + if more then 1 else 0
  {
    assert after == if more then before + {n} else before;
  }

  lemma {:induction false} FirstExists(ops: seq<Op>, n: nat, h: ByteString) returns (i: nat)
    requires n <= |ops| && State(ops, n, h).Some?
    ensures i < n && IsFirst(ops, i, h)
  {
    if State(ops, n - 1, h).None? {
      SubCountsOfRun(ops, n - 1, h, 0);
      i := n - 1;
    } else {
      i := FirstExists(ops, n - 1, h);
    }
  }

  /** What the store compares is what the first writer brought. */
  lemma MismatchIsDifference(ops: seq<Op>, i: nat)
    requires i < |ops|
    ensures Mismatched(State(ops, i, ops[i].hash), ops[i].kEntropy, Truncate(ops[i].blockLabel)) <==>
              DiffersFromFirst(ops, i)
  {
    var h := ops[i].hash;
    if State(ops, i, h).Some? {
      var j := FirstExists(ops, i, h);
      FirstWriterWins(ops, i, h, j);
      assert forall k: nat :: IsFirst(ops, k, h) ==> k == j;
    } else {
      SubCountsOfRun(ops, i, h, 0);
    }
  }

  // ---------- counts against sums ----------

  /** While the ideal total fits below 2^31, the stored count lies between the sum of
      the sub-counts and the total, and reads back unchanged. */
  lemma {:induction false} CountBetweenSumAndTotal(ops: seq<Op>, n: nat, h: ByteString)
    requires n <= |ops| && Accepted(ops) && State(ops, n, h).Some? && Total(ops, n, h) < 0x8000_0000
    ensures var e := State(ops, n, h).value; Sum(e.subs) <= e.stored == e.Count() <= Total(ops, n, h)
  {
    if State(ops, n - 1, h).None? {
    } else {
      CountBetweenSumAndTotal(ops, n - 1, h);
    }
    if ops[n - 1].hash == h {
      CountStepOfRun(ops, n, h);
    }
  }

  lemma CountStepOfRun(ops: seq<Op>, n: nat, h: ByteString)
    requires 0 < n <= |ops| && Accepted(ops) && ops[n - 1].hash == h && Total(ops, n, h) < 0x8000_0000
    requires var prev := State(ops, n - 1, h);
             prev.Some? ==> Sum(prev.value.subs) <= prev.value.stored <= Total(ops, n - 1, h)
    ensures var e := State(ops, n, h).value; Sum(e.subs) <= e.stored <= Total(ops, n, h)
  {
    StateOk(ops, n - 1, h);
    SubCountsOfRun(ops, n - 1, h, ops[n - 1].source);
    CountStep(State(ops, n - 1, h), ops[n - 1], Total(ops, n - 1, h), Weight(ops, n - 1));
  }

  lemma CountStep(prev: Option<Entry>, op: Op, total: nat, weight: nat)
    requires prev.Some? ==> prev.value.Ok() && Sum(prev.value.subs) <= prev.value.stored <= total
    requires weight == if op.Insert? then 1 else if prev.Some? && op.source in prev.value.subs then 0 else op.subCount
    requires total + weight < 0x8000_0000
    ensures Sum(After(prev, op).subs) <= After(prev, op).stored <= total + weight
  {
    var s := op.source;
    match prev
    case None =>
      SingleSum(After(prev, op).subs, s);
    case Some(e) =>
      var e' := After(prev, op);
      if op.Insert? || s !in e.subs {
        SumUpdate(e.subs, s, e'.subs[s]);
        if |e.subs| == 1 && s in e.subs {
          AddedSource(e.subs, s, e'.subs[s]);
          SingleSum(e'.subs, s);
        }
      }
  }

  /** The ideal sub-counts of the cited sources add up to the ideal total. */
  lemma {:induction false} TotalIsSumOfCounted(ops: seq<Op>, n: nat, h: ByteString, ideal: map<nat, nat>)
    requires n <= |ops|
    requires forall s :: s in ideal <==> Cited(ops, n, h, s)
    requires forall s :: s in ideal ==> ideal[s] == Counted(ops, n, h, s)
    ensures Sum(ideal) == Total(ops, n, h)
  {
    if n == 0 {
      assert ideal == map[];
    } else if ops[n - 1].hash != h {
      TotalIsSumOfCounted(ops, n - 1, h, ideal);
    } else {
      var s := ops[n - 1].source;
      SubCountsOfRun(ops, n - 1, h, s);
      var c := Counted(ops, n - 1, h, s);
      if Cited(ops, n - 1, h, s) {
        TotalIsSumOfCounted(ops, n - 1, h, ideal[s := c]);
        SumUpdate(ideal, s, c);
      } else {
        TotalIsSumOfCounted(ops, n - 1, h, ideal - {s});
        SumSplit(ideal, s);
      }
    }
  }

  /** When no source of a hash passes 65535 and the total stays below 2^31, the count
      that find returns is the sum of its sub-counts and is the number of inserts plus
      merged sub-counts. */
  lemma CountIsExact(ops: seq<Op>, n: nat, h: ByteString)
    requires n <= |ops| && Accepted(ops) && State(ops, n, h).Some? && Total(ops, n, h) < 0x8000_0000
    requires forall s :: Cited(ops, n, h, s) ==> Counted(ops, n, h, s) <= 0xffff
    ensures var e := State(ops, n, h).value; e.Count() == Sum(e.subs) == Total(ops, n, h)
  {
    var subs := State(ops, n, h).value.subs;
    forall s
      ensures s in subs <==> Cited(ops, n, h, s)
      ensures s in subs ==> subs[s] == Counted(ops, n, h, s)
    {
      SubCountsOfRun(ops, n, h, s);
    }
    CountBetweenSumAndTotal(ops, n, h);
    TotalIsSumOfCounted(ops, n, h, subs);
  }

  // ---------- where the promise to clip, not wrap, fails ----------

  /** Adding to a stored count clips at 0xffffffff as documented exactly under this
      condition: a count below 2^31 needs only that 64 bits do not overflow, and one
      at or above it is read back sign-extended, so most sums go wrong. */
  lemma ClipsAsDocumented(stored: nat, c: U64)
    requires stored < TWO_TO_THE_32
    ensures Add4(SignExtend(stored), c) == Clip4(stored + c) <==>
              if stored < 0x8000_0000 then stored + c < TWO_TO_THE_64
              else stored + c == 0xffff_ffff || stored + c >= 0x1_ffff_ffff
  {
  }

  /** Two merges and an insert that leave the count at zero, although the entry still
      cites both sources. */
  lemma CountCanReset(h: ByteString)
    requires Lmdb.IsKey(h)
    ensures var ops := [Merge(h, 0, [], 1, 1), Merge(h, 0, [], 2, 0xffff_ffff), Insert(h, 0, [], 1)];
            && Accepted(ops)
            && State(ops, 3, h).Some? && State(ops, 3, h).value.Count() == 0
            && State(ops, 3, h).value.subs == map[1 := 2, 2 := 0xffff]
  {
    var ops := [Merge(h, 0, [], 1, 1), Merge(h, 0, [], 2, 0xffff_ffff), Insert(h, 0, [], 1)];
    var e1 := After(None, ops[0]);
    assert e1 == Entry(0, [], 1, map[1 := 1]);
    var e2 := After(Some(e1), ops[1]);
    assert e2 == Entry(0, [], 0xffff_ffff, map[1 := 1, 2 := 0xffff]);
    AddedSource(e1.subs, 2, 0xffff);
    assert After(Some(e2), ops[2]) == Entry(0, [], 0, map[1 := 2, 2 := 0xffff]);
    assert State(ops, 1, h) == Some(e1);
    assert State(ops, 2, h) == Some(e2);
  }
}
