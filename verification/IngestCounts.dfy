/** The two halves of ingest together: workers count the blocks of the buffers they are
    handed, in any interleaving, and what is stored for a source is what one pass over the
    whole source would have counted. */
module IngestCounts {
  import opened ByteStrings
  import opened IngestBuffers
  import opened IngestObjects
  import opened IngestPipeline
  import opened IngestTallies
  import opened MapSums
  import IngestSafety

  /** How an ingest run hashes, and what each file hash stands for. */
  datatype Setup = Setup(content: ByteString -> ByteString, step: nat, size: nat, labelled: set<ByteString>)
  {
    /** The step divides a part, and a block is no longer than the overlap and one step. */
    ghost predicate Supported() {
      step > 0 && 0x100_0000 % step == 0 && size <= 0x10_0000 + step
    }

    /** The buffer of a job: a part of a file, or all of the uncompressed data. */
    function BufferOf(f: ByteString, ofFile: bool, part: nat): Buffer {
      if ofFile then PartOf(content(f), part) else Buffer(0, content(f), |content(f)|)
    }

    /** What process_ingest_job counts in the buffer of a job. */
    function TallyFor(f: ByteString, ofFile: bool, part: nat): Tally
      requires step > 0
    {
      TallyOf(BlocksOf(BufferOf(f, ofFile, part), step, size), labelled)
    }

    /** What the first n parts of a file amount to. */
    function TallyOfFirst(f: ByteString, n: nat): Tally
      requires step > 0
    {
      TallyOfParts(content(f), n, step, size, labelled)
    }

    /** What one pass over the whole source counts. */
    function TallyInOnePass(f: ByteString): Tally
      requires step > 0
    {
      TallyOf(OnePass(content(f), |content(f)|, step, size), labelled)
    }

    function PartsOf(f: ByteString, ofFile: bool): nat {
      if ofFile then PartsTotal(|content(f)|) else 1
    }
  }

  /** The events report the files as they are: their sizes, and the counts that the block
      loop finds in the buffer at hand. */
  ghost predicate Honest(u: Setup, s: State, e: Event)
    requires u.step > 0
  {
    && (e.Recurse? ==> e.filesize == |u.content(e.fileHash)|)
    && (e.Track? && IsAt(s, e.w, Hashing) ==>
          var worker := s.workers[e.w];
          var t := u.TallyFor(Top(worker).fileHash, |worker.stack| == 1, Top(worker).part);
          e.zeroCount == t.zeroCount && e.nonprobativeCount == t.nonprobativeCount)
  }

  ghost predicate HonestAt(u: Setup, c: Config, workers: nat, events: seq<Event>, k: nat)
    requires u.step > 0 && k < |events|
  {
    Honest(u, Reached(c, workers, events, k), events[k])
  }

  ghost predicate HonestRun(u: Setup, c: Config, workers: nat, events: seq<Event>)
    requires u.step > 0
  {
    && (forall file :: file in c.files ==> file.filesize == |u.content(file.fileHash)|)
    && (forall k :: 0 <= k < |events| ==> HonestAt(u, c, workers, events, k))
  }

  /** The ledger of a source holds the counts of its buffers. */
  ghost predicate Measured(u: Setup, f: ByteString, source: Source, l: Ledger)
    requires u.step > 0
  {
    && source.filesize == |u.content(f)| && source.partsTotal == u.PartsOf(f, l.origin.FromFile?)
    && (forall p :: p in l.zeros ==> l.zeros[p] == u.TallyFor(f, l.origin.FromFile?, p).zeroCount)
    && (forall p :: p in l.nonprobatives ==>
      l.nonprobatives[p] == u.TallyFor(f, l.origin.FromFile?, p).nonprobativeCount)
  }

  ghost predicate AllMeasured(u: Setup, s: State)
    requires u.step > 0
  {
    forall f :: f in s.sources && f in s.ledger ==> Measured(u, f, s.sources[f], s.ledger[f])
  }

  // ---------- every step keeps it ----------

  lemma OpenMeasured(u: Setup, c: Config, s: State, readable: bool)
    requires u.step > 0 && AllMeasured(u, s) && s.producer.AtFile?
    requires forall file :: file in c.files ==> file.filesize == |u.content(file.fileHash)|
    ensures AllMeasured(u, OpenFile(c, s, readable))
  {
    var i := s.producer.i;
    assert i < |c.files| ==> c.files[i] in c.files;
    var s' := OpenFile(c, s, readable);
    forall f | f in s'.sources && f in s'.ledger
      ensures Measured(u, f, s'.sources[f], s'.ledger[f])
    {
      assert f in s.sources && f in s.ledger ==> Measured(u, f, s.sources[f], s.ledger[f]);
    }
  }

  lemma PushMeasured(u: Setup, c: Config, s: State)
    requires u.step > 0 && AllMeasured(u, s) && s.producer.Sending?
    ensures AllMeasured(u, PushJob(c, s))
  {
    var s' := PushJob(c, s);
    forall f | f in s'.sources && f in s'.ledger
      ensures Measured(u, f, s'.sources[f], s'.ledger[f])
    {
      assert Measured(u, f, s.sources[f], s.ledger[f]);
    }
  }

  lemma TrackMeasured(u: Setup, c: Config, s: State, e: Event)
    requires u.step > 0 && AllMeasured(u, s) && IngestSafety.Inv(c, s)
    requires e.Track? && IsAt(s, e.w, Hashing) && Honest(u, s, e)
    ensures AllMeasured(u, TrackPart(s, e.w, e.zeroCount, e.nonprobativeCount))
  {
    assert IngestSafety.Holds(IngestSafety.Hands, c, s);
    assert IngestSafety.HandOk(e.w, s.workers[e.w], s.ledger);
    var s' := TrackPart(s, e.w, e.zeroCount, e.nonprobativeCount);
    forall f | f in s'.sources && f in s'.ledger
      ensures Measured(u, f, s'.sources[f], s'.ledger[f])
    {
      assert Measured(u, f, s.sources[f], s.ledger[f]);
    }
  }

  lemma RecurseMeasured(u: Setup, c: Config, s: State, w: nat, f: ByteString, filesize: nat)
    requires u.step > 0 && AllMeasured(u, s) && IsAt(s, w, Recursing) && filesize == |u.content(f)|
    ensures AllMeasured(u, RecurseInto(c, s, w, f, filesize))
  {
    var s' := RecurseInto(c, s, w, f, filesize);
    forall g | g in s'.sources && g in s'.ledger
      ensures Measured(u, g, s'.sources[g], s'.ledger[g])
    {
      assert g in s.sources && g in s.ledger ==> Measured(u, g, s.sources[g], s.ledger[g]);
    }
  }

  lemma NextMeasured(u: Setup, c: Config, s: State, e: Event)
    requires u.step > 0 && AllMeasured(u, s) && IngestSafety.Inv(c, s) && Honest(u, s, e)
    requires forall file :: file in c.files ==> file.filesize == |u.content(file.fileHash)|
    ensures AllMeasured(u, Next(c, s, e))
  {
    match e
    case Open(readable) =>
      if s.producer.AtFile? {
        OpenMeasured(u, c, s, readable);
      }
    case Push =>
      if s.producer.Sending? && s.producer.room {
        PushMeasured(u, c, s);
      }
    case Track(w, z, n) =>
      if IsAt(s, w, Hashing) {
        TrackMeasured(u, c, s, e);
      }
    case Recurse(w, f, size) =>
      if IsAt(s, w, Recursing) && |s.workers[w].stack| <= MAX_DEPTH && size > 0 {
        RecurseMeasured(u, c, s, w, f, size);
      }
    case _ =>
      assert Next(c, s, e).sources == s.sources && Next(c, s, e).ledger == s.ledger;
  }

  lemma NextOfRun(u: Setup, c: Config, workers: nat, events: seq<Event>, k: nat, s: State)
    requires u.step > 0 && HonestRun(u, c, workers, events) && k < |events| && s == Reached(c, workers, events, k)
    requires AllMeasured(u, s)
    ensures AllMeasured(u, Next(c, s, events[k]))
  {
    IngestSafety.ReachedOk(c, workers, events, k);
    assert HonestAt(u, c, workers, events, k);
    NextMeasured(u, c, s, events[k]);
  }

  lemma {:induction false} ReachedMeasured(u: Setup, c: Config, workers: nat, events: seq<Event>, n: nat)
    returns (s: State)
    requires u.step > 0 && HonestRun(u, c, workers, events) && n <= |events|
    ensures s == Reached(c, workers, events, n) && AllMeasured(u, s)
  {
    if n == 0 {
      s := Init(workers);
    } else {
      var was := ReachedMeasured(u, c, workers, events, n - 1);
      NextOfRun(u, c, workers, events, n - 1, was);
      s := Next(c, was, events[n - 1]);
    }
  }

  // ---------- sums over parts ----------

  lemma OneMorePart(u: Setup, f: ByteString, p: nat)
    requires u.step > 0
    ensures var before, after := u.TallyOfFirst(f, p), u.TallyOfFirst(f, p + 1);
            && after.zeroCount == before.zeroCount + u.TallyFor(f, true, p).zeroCount
            && after.nonprobativeCount == before.nonprobativeCount + u.TallyFor(f, true, p).nonprobativeCount
            && after.inserted == before.inserted + u.TallyFor(f, true, p).inserted
  {
  }

  // Counts kept under the numbers of the first n parts add up to those parts' tally.

  ghost function ZerosBefore(u: Setup, f: ByteString): nat -> nat
    requires u.step > 0
  {
    (n: nat) => u.TallyOfFirst(f, n).zeroCount
  }

  lemma ZerosGrow(u: Setup, f: ByteString, m: map<nat, nat>, p: nat)
    requires u.step > 0 && p in m && m[p] == u.TallyFor(f, true, p).zeroCount
    ensures Grows(m, ZerosBefore(u, f), p)
  {
    OneMorePart(u, f, p);
  }

  lemma ZerosOfParts(u: Setup, f: ByteString, m: map<nat, nat>, n: nat)
    requires u.step > 0 && forall p :: p in m <==> 0 <= p < n
    requires forall p :: p in m ==> m[p] == u.TallyFor(f, true, p).zeroCount
    ensures Sum(m) == u.TallyOfFirst(f, n).zeroCount
  {
    forall p: nat | p < n
      ensures Grows(m, ZerosBefore(u, f), p)
    {
      assert p in m;
      ZerosGrow(u, f, m, p);
    }
    SumBelow(m, ZerosBefore(u, f), n);
  }

  ghost function NonprobativesBefore(u: Setup, f: ByteString): nat -> nat
    requires u.step > 0
  {
    (n: nat) => u.TallyOfFirst(f, n).nonprobativeCount
  }

  lemma NonprobativesGrow(u: Setup, f: ByteString, m: map<nat, nat>, p: nat)
    requires u.step > 0 && p in m && m[p] == u.TallyFor(f, true, p).nonprobativeCount
    ensures Grows(m, NonprobativesBefore(u, f), p)
  {
    OneMorePart(u, f, p);
  }

  lemma NonprobativesOfParts(u: Setup, f: ByteString, m: map<nat, nat>, n: nat)
    requires u.step > 0 && forall p :: p in m <==> 0 <= p < n
    requires forall p :: p in m ==> m[p] == u.TallyFor(f, true, p).nonprobativeCount
    ensures Sum(m) == u.TallyOfFirst(f, n).nonprobativeCount
  {
    forall p: nat | p < n
      ensures Grows(m, NonprobativesBefore(u, f), p)
    {
      assert p in m;
      NonprobativesGrow(u, f, m, p);
    }
    SumBelow(m, NonprobativesBefore(u, f), n);
  }

  lemma OnlyPart(m: map<nat, nat>)
    requires forall p :: p in m <==> p == 0
    ensures Sum(m) == m[0]
  {
    SumSplit(m, 0);
    assert m - {0} == map[];
  }

  lemma CountsOfSource(u: Setup, f: ByteString, source: Source, l: Ledger)
    requires u.Supported() && Measured(u, f, source, l) && IngestSafety.SumsOf(source, l)
    ensures source.zeroCount == u.TallyInOnePass(f).zeroCount
    ensures source.nonprobativeCount == u.TallyInOnePass(f).nonprobativeCount
  {
    if l.origin.FromFile? {
      ZerosOfParts(u, f, l.zeros, source.partsTotal);
      NonprobativesOfParts(u, f, l.nonprobatives, source.partsTotal);
      BuffersAreOnePass(u.content(f), u.step, u.size, u.labelled);
    } else {
      OnlyPart(l.zeros);
      OnlyPart(l.nonprobatives);
    }
  }

  /** Whatever the interleaving, a source that is stored has its own size and the zero and
      nonprobative counts of one pass over it, whether it came from a file cut into parts
      or from uncompressed data: the numbers of its places that are zero and of others whose
      block has a label. */
  lemma StoredCountsAreOnePass(u: Setup, c: Config, workers: nat, events: seq<Event>, n: nat)
    requires u.Supported() && HonestRun(u, c, workers, events) && n <= |events|
    ensures forall r :: r in Reached(c, workers, events, n).stored ==>
                          && r.source.filesize == |u.content(r.fileHash)|
                          && r.source.zeroCount == u.TallyInOnePass(r.fileHash).zeroCount
                          && r.source.nonprobativeCount == u.TallyInOnePass(r.fileHash).nonprobativeCount
    ensures forall r :: r in Reached(c, workers, events, n).stored ==>
                          var file := u.content(r.fileHash);
                          && r.source.zeroCount == |ZeroPlaces(file, u.step, u.size)|
                          && r.source.nonprobativeCount == |LabelledPlaces(file, u.step, u.size, u.labelled)|
  {
    var s := ReachedMeasured(u, c, workers, events, n);
    IngestSafety.ReachedOk(c, workers, events, n);
    IngestSafety.StoredOnce(c, workers, events, n);
    assert IngestSafety.Holds(IngestSafety.Database, c, s);
    forall r | r in s.stored
      ensures r.source.filesize == |u.content(r.fileHash)|
      ensures r.source.zeroCount == u.TallyInOnePass(r.fileHash).zeroCount
      ensures r.source.nonprobativeCount == u.TallyInOnePass(r.fileHash).nonprobativeCount
      ensures r.source.zeroCount == |ZeroPlaces(u.content(r.fileHash), u.step, u.size)|
      ensures r.source.nonprobativeCount == |LabelledPlaces(u.content(r.fileHash), u.step, u.size, u.labelled)|
    {
      assert IngestSafety.RecordOk(r, s.sources);
      assert Measured(u, r.fileHash, s.sources[r.fileHash], s.ledger[r.fileHash]);
      CountsOfSource(u, r.fileHash, r.source, s.ledger[r.fileHash]);
      CountsOnBytes(u.content(r.fileHash), u.step, u.size, u.labelled);
    }
  }
}
