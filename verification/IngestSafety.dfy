/** What every step of threaded ingest keeps, and what it comes to when all workers
    have exited. */
module IngestSafety {
  import opened ByteStrings
  import opened IngestBuffers
  import opened IngestObjects
  import opened IngestPipeline
  import opened MapSums

  // ---------- the queue ----------

  /** The queue holds exactly the jobs pushed and not yet taken, in order, and a
      producer that saw room still has it. */
  ghost predicate QueueOk(max: nat, producer: Producer, queue: seq<Job>, doneAdding: bool, pushed: seq<Job>,
                          taken: nat)
  {
    && taken <= |pushed| && queue == pushed[taken..] && |queue| <= max
    && (producer.Sending? && producer.room ==> |queue| < max)
    && (doneAdding <==> producer.Finished?)
  }

  ghost predicate ExitsOk(workers: seq<Worker>, doneAdding: bool, queue: seq<Job>) {
    forall w :: 0 <= w < |workers| && workers[w].Exited? ==> doneAdding && queue == []
  }

  ghost predicate HeldBy(worker: Worker, serial: nat) {
    worker.Busy? && worker.serial == serial
  }

  ghost predicate Held(workers: seq<Worker>, serial: nat) {
    exists w :: 0 <= w < |workers| && HeldBy(workers[w], serial)
  }

  ghost predicate BusyOk(worker: Worker, pushed: seq<Job>, taken: nat, finished: set<nat>) {
    worker.Busy? ==>
      && worker.stack != [] && worker.serial < taken <= |pushed| && worker.serial !in finished
      && worker.stack[0] == pushed[worker.serial]
  }

  /** Every job taken is finished or with exactly one worker. */
  ghost predicate SerialsOk(workers: seq<Worker>, pushed: seq<Job>, taken: nat, finished: set<nat>) {
    && (forall w :: 0 <= w < |workers| ==> BusyOk(workers[w], pushed, taken, finished))
    && (forall v, w :: 0 <= v < w < |workers| && workers[v].Busy? && workers[w].Busy? ==>
                         workers[v].serial != workers[w].serial)
    && (forall i :: i in finished ==> i < taken)
    && (forall i :: 0 <= i < taken ==> i in finished || Held(workers, i))
  }

  // ---------- the tracker ----------

  ghost predicate SourceOk(source: Source, l: Ledger) {
    && source.partsDone == |l.zeros| && l.zeros.Keys == l.nonprobatives.Keys
    && source.zeroCount == Sum(l.zeros) && source.nonprobativeCount == Sum(l.nonprobatives)
    && (forall p :: p in l.zeros ==> p < l.sent)
    && l.sent <= source.partsTotal && source.partsTotal > 0
  }

  ghost predicate LedgerOk(sources: map<ByteString, Source>, ledger: map<ByteString, Ledger>,
                           preexisting: set<ByteString>)
  {
    && sources.Keys == ledger.Keys
    && (forall f :: f in sources ==> f !in preexisting && SourceOk(sources[f], ledger[f]))
  }

  ghost predicate JobOk(job: Job, ledger: map<ByteString, Ledger>, waiting: bool) {
    !job.disabled ==>
      && job.fileHash in ledger && ledger[job.fileHash].origin == FromFile && job.part < ledger[job.fileHash].sent
      && (waiting ==> job.part !in ledger[job.fileHash].zeros)
  }

  /** A part of a new source is pushed at most once, and is not counted while it waits. */
  ghost predicate JobsOk(pushed: seq<Job>, taken: nat, ledger: map<ByteString, Ledger>) {
    && (forall i :: 0 <= i < |pushed| ==> JobOk(pushed[i], ledger, i >= taken))
    && (forall i, j :: 0 <= i < j < |pushed| && !pushed[i].disabled ==> pushed[i] != pushed[j])
  }

  ghost predicate HandOk(w: nat, worker: Worker, ledger: map<ByteString, Ledger>) {
    worker.Busy? && worker.stage == Hashing ==>
      && worker.stack != []
      && var job := Top(worker);
      && !job.disabled && job.fileHash in ledger
      && job.part < ledger[job.fileHash].sent && job.part !in ledger[job.fileHash].zeros
      && (ledger[job.fileHash].origin == if |worker.stack| == 1 then FromFile else FromWorker(w))
  }

  ghost predicate HandsOk(workers: seq<Worker>, ledger: map<ByteString, Ledger>) {
    forall w :: 0 <= w < |workers| ==> HandOk(w, workers[w], ledger)
  }

  ghost predicate SendingIt(files: seq<File>, producer: Producer, f: ByteString) {
    producer.Sending? && !producer.disabled && producer.i < |files| && files[producer.i].fileHash == f
  }

  ghost predicate ProducerOk(files: seq<File>, producer: Producer, sources: map<ByteString, Source>,
                             ledger: map<ByteString, Ledger>)
  {
    producer.Sending? ==>
      && producer.i < |files| && producer.offset < files[producer.i].filesize
      && (!producer.disabled ==>
            var f := files[producer.i].fileHash;
            && f in ledger && f in sources && ledger[f].origin == FromFile
            && sources[f].partsTotal == PartsTotal(files[producer.i].filesize)
            && producer.offset == ledger[f].sent * BUFFER_DATA_SIZE)
  }

  /** All parts of a source are handed out, unless its file was given up or is being sent. */
  ghost predicate SentOk(files: seq<File>, producer: Producer, sources: map<ByteString, Source>,
                         ledger: map<ByteString, Ledger>, aborted: set<ByteString>)
  {
    forall f :: f in ledger && f in sources ==>
                  ledger[f].sent == sources[f].partsTotal || f in aborted || SendingIt(files, producer, f)
  }

  ghost predicate Waits(pushed: seq<Job>, taken: nat, job: Job) {
    exists i :: taken <= i < |pushed| && pushed[i] == job
  }

  ghost predicate Hashes(worker: Worker, job: Job) {
    worker.Busy? && worker.stage == Hashing && worker.stack != [] && Top(worker) == job
  }

  ghost predicate InHand(workers: seq<Worker>, job: Job) {
    exists w :: 0 <= w < |workers| && Hashes(workers[w], job)
  }

  /** A part handed out and not counted waits in the queue or is with a worker. */
  ghost predicate CoverOk(pushed: seq<Job>, taken: nat, workers: seq<Worker>, ledger: map<ByteString, Ledger>) {
    forall f, p :: f in ledger && 0 <= p < ledger[f].sent && p !in ledger[f].zeros ==>
      Covered(pushed, taken, workers, f, p)
  }

  ghost predicate Covered(pushed: seq<Job>, taken: nat, workers: seq<Worker>, f: ByteString, p: nat) {
    Waits(pushed, taken, Job(f, p, false)) || InHand(workers, Job(f, p, false))
  }

  // ---------- the database ----------

  ghost predicate Done(source: Source) {
    source.partsDone == source.partsTotal
  }

  ghost predicate RecordOk(r: Record, sources: map<ByteString, Source>) {
    r.fileHash in sources && r.source == sources[r.fileHash] && Done(r.source)
  }

  ghost predicate InLog(stored: seq<Record>, f: ByteString) {
    exists i :: 0 <= i < |stored| && stored[i].fileHash == f
  }

  ghost predicate Stores(worker: Worker, f: ByteString) {
    worker.Busy? && worker.stage.Storing? && worker.stage.record.fileHash == f
  }

  ghost predicate SomeStores(workers: seq<Worker>, f: ByteString) {
    exists w :: 0 <= w < |workers| && Stores(workers[w], f)
  }

  ghost predicate StorerOk(worker: Worker, stored: seq<Record>, sources: map<ByteString, Source>) {
    worker.Busy? && worker.stage.Storing? ==>
      RecordOk(worker.stage.record, sources) && !InLog(stored, worker.stage.record.fileHash)
  }

  ghost predicate StoredOk(stored: seq<Record>, sources: map<ByteString, Source>, workers: seq<Worker>) {
    && (forall i :: 0 <= i < |stored| ==> RecordOk(stored[i], sources))
    && (forall i, j :: 0 <= i < j < |stored| ==> stored[i].fileHash != stored[j].fileHash)
    && (forall w :: 0 <= w < |workers| ==> StorerOk(workers[w], stored, sources))
    && (forall v, w, f :: 0 <= v < w < |workers| && Stores(workers[v], f) ==> !Stores(workers[w], f))
    && (forall f :: f in sources && Done(sources[f]) ==> InLog(stored, f) || SomeStores(workers, f))
  }

  // ---------- the invariant ----------

  datatype Part = Queue | Exits | Serials | Books | Jobs | Hands | Producing | Sent | Cover | Database

  ghost predicate Holds(part: Part, c: Config, s: State) {
    match part
    case Queue => QueueOk(c.maxQueueSize, s.producer, s.queue, s.doneAdding, s.pushed, s.taken)
    case Exits => ExitsOk(s.workers, s.doneAdding, s.queue)
    case Serials => SerialsOk(s.workers, s.pushed, s.taken, s.finished)
    case Books => LedgerOk(s.sources, s.ledger, c.preexisting)
    case Jobs => JobsOk(s.pushed, s.taken, s.ledger)
    case Hands => HandsOk(s.workers, s.ledger)
    case Producing => ProducerOk(c.files, s.producer, s.sources, s.ledger)
    case Sent => SentOk(c.files, s.producer, s.sources, s.ledger, s.aborted)
    case Cover => CoverOk(s.pushed, s.taken, s.workers, s.ledger)
    case Database => StoredOk(s.stored, s.sources, s.workers)
  }

  ghost predicate Inv(c: Config, s: State) {
    !s.failed && forall part :: Holds(part, c, s)
  }

  // ---------- parts kept by changes of one worker ----------

  lemma ExitsKept(workers: seq<Worker>, doneAdding: bool, queue: seq<Job>, w: nat, worker: Worker)
    requires ExitsOk(workers, doneAdding, queue) && w < |workers| && !worker.Exited?
    ensures ExitsOk(workers[w := worker], doneAdding, queue)
  {
  }

  /** Another look at the same job, or at none. */
  lemma SerialsKept(workers: seq<Worker>, pushed: seq<Job>, taken: nat, finished: set<nat>, w: nat, worker: Worker)
    requires SerialsOk(workers, pushed, taken, finished) && w < |workers|
    requires worker.Busy? <==> workers[w].Busy?
    requires worker.Busy? ==>
               worker.serial == workers[w].serial && worker.stack != [] && worker.stack[0] == workers[w].stack[0]
    ensures SerialsOk(workers[w := worker], pushed, taken, finished)
  {
    var workers' := workers[w := worker];
    assert BusyOk(workers[w], pushed, taken, finished);
    forall i | 0 <= i < taken && i !in finished
      ensures Held(workers', i)
    {
      var v :| 0 <= v < |workers| && HeldBy(workers[v], i);
      assert HeldBy(workers'[v], i);
    }
  }

  lemma HandsKept(workers: seq<Worker>, ledger: map<ByteString, Ledger>, w: nat, worker: Worker)
    requires HandsOk(workers, ledger) && w < |workers| && HandOk(w, worker, ledger)
    ensures HandsOk(workers[w := worker], ledger)
  {
  }

  lemma CoverKept(pushed: seq<Job>, taken: nat, workers: seq<Worker>, ledger: map<ByteString, Ledger>, w: nat,
                  worker: Worker)
    requires CoverOk(pushed, taken, workers, ledger) && w < |workers|
    requires !(workers[w].Busy? && workers[w].stage == Hashing)
    ensures CoverOk(pushed, taken, workers[w := worker], ledger)
  {
    var workers' := workers[w := worker];
    forall f, p: nat | f in ledger && p < ledger[f].sent && p !in ledger[f].zeros
      ensures Covered(pushed, taken, workers', f, p)
    {
      assert Covered(pushed, taken, workers, f, p);
      if InHand(workers, Job(f, p, false)) {
        var v :| 0 <= v < |workers| && Hashes(workers[v], Job(f, p, false));
        assert Hashes(workers'[v], Job(f, p, false));
      }
    }
  }

  lemma StoredKept(stored: seq<Record>, sources: map<ByteString, Source>, workers: seq<Worker>, w: nat, worker: Worker)
    requires StoredOk(stored, sources, workers) && w < |workers|
    requires !(workers[w].Busy? && workers[w].stage.Storing?) && !(worker.Busy? && worker.stage.Storing?)
    ensures StoredOk(stored, sources, workers[w := worker])
  {
    var workers' := workers[w := worker];
    forall f | f in sources && Done(sources[f]) && !InLog(stored, f)
      ensures SomeStores(workers', f)
    {
      var v :| 0 <= v < |workers| && Stores(workers[v], f);
      assert Stores(workers'[v], f);
    }
    forall v, u, f | 0 <= v < u < |workers'| && Stores(workers'[v], f)
      ensures !Stores(workers'[u], f)
    {
      assert Stores(workers[v], f);
    }
  }

  // ---------- parts kept when a source is added ----------

  ghost predicate Extends<V>(m: map<ByteString, V>, m': map<ByteString, V>) {
    forall f :: f in m ==> f in m' && m'[f] == m[f]
  }

  lemma JobsExtended(pushed: seq<Job>, taken: nat, ledger: map<ByteString, Ledger>, ledger': map<ByteString, Ledger>)
    requires JobsOk(pushed, taken, ledger) && Extends(ledger, ledger')
    ensures JobsOk(pushed, taken, ledger')
  {
    forall i | 0 <= i < |pushed|
      ensures JobOk(pushed[i], ledger', i >= taken)
    {
      assert JobOk(pushed[i], ledger, i >= taken);
    }
  }

  lemma HandsExtended(workers: seq<Worker>, ledger: map<ByteString, Ledger>, ledger': map<ByteString, Ledger>)
    requires HandsOk(workers, ledger) && Extends(ledger, ledger')
    ensures HandsOk(workers, ledger')
  {
    forall w | 0 <= w < |workers|
      ensures HandOk(w, workers[w], ledger')
    {
      assert HandOk(w, workers[w], ledger);
    }
  }

  lemma NewSourceOk(filesize: nat, partsTotal: nat, origin: Origin, sent: nat)
    requires sent <= partsTotal && partsTotal > 0
    ensures SourceOk(Source(filesize, partsTotal, 0, 0, 0), Ledger(origin, sent, map[], map[]))
  {
  }

  lemma LedgerExtended(sources: map<ByteString, Source>, ledger: map<ByteString, Ledger>, preexisting: set<ByteString>,
                       f: ByteString, source: Source, l: Ledger)
    requires LedgerOk(sources, ledger, preexisting) && IsNew(sources, preexisting, f) && SourceOk(source, l)
    ensures LedgerOk(sources[f := source], ledger[f := l], preexisting)
    ensures Extends(sources, sources[f := source]) && Extends(ledger, ledger[f := l])
  {
  }

  lemma StoredExtended(stored: seq<Record>, sources: map<ByteString, Source>, workers: seq<Worker>, f: ByteString,
                       source: Source)
    requires StoredOk(stored, sources, workers) && f !in sources && !Done(source)
    ensures StoredOk(stored, sources[f := source], workers)
  {
    forall w | 0 <= w < |workers|
      ensures StorerOk(workers[w], stored, sources[f := source])
    {
      assert StorerOk(workers[w], stored, sources);
    }
  }

  // ---------- the producer's steps ----------

  /** A new file's source is opened with no part handed out. */
  lemma OpenKeepsBooks(c: Config, s: State, readable: bool)
    requires s.producer.AtFile? && LedgerOk(s.sources, s.ledger, c.preexisting)
    ensures var s' := OpenFile(c, s, readable);
            LedgerOk(s'.sources, s'.ledger, c.preexisting) && Extends(s.sources, s'.sources)
              && Extends(s.ledger, s'.ledger)
  {
    var i := s.producer.i;
    if i < |c.files| && readable && c.files[i].filesize != 0 && IsNew(s.sources, c.preexisting, c.files[i].fileHash) {
      var total := PartsTotal(c.files[i].filesize);
      NewSourceOk(c.files[i].filesize, total, FromFile, 0);
      LedgerExtended(s.sources, s.ledger, c.preexisting, c.files[i].fileHash,
                     Source(c.files[i].filesize, total, 0, 0, 0), Ledger(FromFile, 0, map[], map[]));
    }
  }

  lemma OpenKeepsDatabase(c: Config, s: State, readable: bool)
    requires s.producer.AtFile? && StoredOk(s.stored, s.sources, s.workers)
    ensures StoredOk(s.stored, OpenFile(c, s, readable).sources, s.workers)
  {
    var i := s.producer.i;
    if i < |c.files| && readable && c.files[i].filesize != 0 && IsNew(s.sources, c.preexisting, c.files[i].fileHash) {
      var total := PartsTotal(c.files[i].filesize);
      StoredExtended(s.stored, s.sources, s.workers, c.files[i].fileHash, Source(c.files[i].filesize, total, 0, 0, 0));
    }
  }

  lemma OpenKeepsProducing(c: Config, s: State, readable: bool)
    requires s.producer.AtFile?
    requires SentOk(c.files, s.producer, s.sources, s.ledger, s.aborted) && s.sources.Keys == s.ledger.Keys
    ensures var s' := OpenFile(c, s, readable);
            && ProducerOk(c.files, s'.producer, s'.sources, s'.ledger)
            && SentOk(c.files, s'.producer, s'.sources, s'.ledger, s'.aborted)
  {
  }

  lemma OpenKeepsCover(c: Config, s: State, readable: bool)
    requires s.producer.AtFile? && CoverOk(s.pushed, s.taken, s.workers, s.ledger)
    ensures CoverOk(s.pushed, s.taken, s.workers, OpenFile(c, s, readable).ledger)
  {
  }

  lemma OpenKeeps(c: Config, s: State, readable: bool)
    requires Inv(c, s) && s.producer.AtFile?
    ensures Inv(c, OpenFile(c, s, readable))
  {
    OpenKeepsBookSide(c, s, readable);
    OpenKeepsJobSide(c, s, readable);
    OpenKeepsQueueSide(c, s, readable);
  }

  lemma OpenKeepsBookSide(c: Config, s: State, readable: bool)
    requires Inv(c, s) && s.producer.AtFile?
    ensures var s' := OpenFile(c, s, readable);
            && Holds(Books, c, s') && Holds(Database, c, s') && Holds(Producing, c, s') && Holds(Sent, c, s')
            && Extends(s.ledger, s'.ledger)
  {
    assert Holds(Books, c, s) && Holds(Sent, c, s) && Holds(Database, c, s);
    OpenKeepsBooks(c, s, readable);
    OpenKeepsDatabase(c, s, readable);
    OpenKeepsProducing(c, s, readable);
  }

  lemma OpenKeepsJobSide(c: Config, s: State, readable: bool)
    requires Inv(c, s) && s.producer.AtFile? && Extends(s.ledger, OpenFile(c, s, readable).ledger)
    ensures var s' := OpenFile(c, s, readable);
            Holds(Jobs, c, s') && Holds(Hands, c, s') && Holds(Cover, c, s')
  {
    assert Holds(Jobs, c, s) && Holds(Hands, c, s) && Holds(Cover, c, s);
    OpenKeepsCover(c, s, readable);
    JobsExtended(s.pushed, s.taken, s.ledger, OpenFile(c, s, readable).ledger);
    HandsExtended(s.workers, s.ledger, OpenFile(c, s, readable).ledger);
  }

  lemma OpenKeepsQueueSide(c: Config, s: State, readable: bool)
    requires Inv(c, s) && s.producer.AtFile?
    ensures var s' := OpenFile(c, s, readable);
            Holds(Queue, c, s') && Holds(Exits, c, s') && Holds(Serials, c, s') && !s'.failed
  {
    assert Holds(Queue, c, s) && Holds(Exits, c, s) && Holds(Serials, c, s);
  }

  lemma CheckKeeps(c: Config, s: State)
    requires Inv(c, s) && s.producer.Sending?
    ensures Inv(c, CheckRoom(c, s))
  {
    CheckKeepsSending(c, s);
    assert Holds(Exits, c, s) && Holds(Serials, c, s) && Holds(Books, c, s) && Holds(Jobs, c, s);
    assert Holds(Hands, c, s) && Holds(Cover, c, s) && Holds(Database, c, s);
  }

  lemma CheckKeepsSending(c: Config, s: State)
    requires Inv(c, s) && s.producer.Sending?
    ensures var s' := CheckRoom(c, s); Holds(Queue, c, s') && Holds(Sent, c, s') && Holds(Producing, c, s')
  {
    assert Holds(Queue, c, s) && Holds(Sent, c, s) && Holds(Producing, c, s);
    SentKept(c, s, CheckRoom(c, s).producer);
  }

  lemma SentKept(c: Config, s: State, producer: Producer)
    requires SentOk(c.files, s.producer, s.sources, s.ledger, s.aborted)
    requires forall f :: SendingIt(c.files, s.producer, f) ==> SendingIt(c.files, producer, f)
    ensures SentOk(c.files, producer, s.sources, s.ledger, s.aborted)
  {
  }

  lemma AbortKeeps(c: Config, s: State)
    requires Inv(c, s) && s.producer.Sending?
    ensures Inv(c, Abort(c, s))
  {
    AbortKeepsSending(c, s);
    assert Holds(Exits, c, s) && Holds(Serials, c, s) && Holds(Books, c, s) && Holds(Jobs, c, s);
    assert Holds(Hands, c, s) && Holds(Cover, c, s) && Holds(Database, c, s);
  }

  lemma AbortKeepsSending(c: Config, s: State)
    requires Inv(c, s) && s.producer.Sending?
    ensures var s' := Abort(c, s); Holds(Queue, c, s') && Holds(Sent, c, s') && Holds(Producing, c, s')
  {
    assert Holds(Queue, c, s) && Holds(Sent, c, s) && Holds(Producing, c, s);
    AbortKeepsSent(c, s);
  }

  lemma AbortKeepsSent(c: Config, s: State)
    requires s.producer.Sending? && SentOk(c.files, s.producer, s.sources, s.ledger, s.aborted)
    ensures var s' := Abort(c, s); SentOk(c.files, s'.producer, s.sources, s.ledger, s'.aborted)
  {
  }

  // ---------- push ----------

  /** One more part of the file being sent is handed out. */
  function SentOne(l: Ledger): Ledger {
    l.(sent := l.sent + 1)
  }

  lemma PushKeepsBooks(c: Config, s: State)
    requires s.producer.Sending? && LedgerOk(s.sources, s.ledger, c.preexisting)
    requires ProducerOk(c.files, s.producer, s.sources, s.ledger)
    ensures LedgerOk(s.sources, PushJob(c, s).ledger, c.preexisting)
  {
    if !s.producer.disabled {
      var f := c.files[s.producer.i].fileHash;
      PartFits(c.files[s.producer.i].filesize, s.ledger[f].sent);
      assert SourceOk(s.sources[f], SentOne(s.ledger[f]));
    }
  }

  lemma PushKeepsProducing(c: Config, s: State)
    requires s.producer.Sending? && ProducerOk(c.files, s.producer, s.sources, s.ledger)
    ensures ProducerOk(c.files, PushJob(c, s).producer, s.sources, PushJob(c, s).ledger)
  {
  }

  lemma PushKeepsSent(c: Config, s: State)
    requires s.producer.Sending? && ProducerOk(c.files, s.producer, s.sources, s.ledger)
    requires SentOk(c.files, s.producer, s.sources, s.ledger, s.aborted)
    requires LedgerOk(s.sources, PushJob(c, s).ledger, c.preexisting)
    ensures SentOk(c.files, PushJob(c, s).producer, s.sources, PushJob(c, s).ledger, s.aborted)
  {
    var file, s' := c.files[s.producer.i], PushJob(c, s);
    var f := file.fileHash;
    if !s.producer.disabled {
      PartFits(file.filesize, s'.ledger[f].sent);
      assert SourceOk(s.sources[f], s'.ledger[f]);
    }
  }

  lemma PushKeepsJobs(c: Config, s: State)
    requires s.producer.Sending? && ProducerOk(c.files, s.producer, s.sources, s.ledger) && s.taken <= |s.pushed|
    requires JobsOk(s.pushed, s.taken, s.ledger) && LedgerOk(s.sources, s.ledger, c.preexisting)
    ensures JobsOk(PushJob(c, s).pushed, s.taken, PushJob(c, s).ledger)
  {
    var s' := PushJob(c, s);
    forall i | 0 <= i < |s'.pushed|
      ensures JobOk(s'.pushed[i], s'.ledger, i >= s.taken)
    {
      if i < |s.pushed| {
        assert JobOk(s.pushed[i], s.ledger, i >= s.taken);
      } else if !s.producer.disabled {
        assert SourceOk(s.sources[s'.pushed[i].fileHash], s.ledger[s'.pushed[i].fileHash]);
      }
    }
    forall i | 0 <= i < |s.pushed| && !s.pushed[i].disabled
      ensures s.pushed[i] != s'.pushed[|s.pushed|]
    {
      assert JobOk(s.pushed[i], s.ledger, i >= s.taken);
    }
  }

  lemma PushKeepsHands(c: Config, s: State)
    requires s.producer.Sending? && HandsOk(s.workers, s.ledger)
    ensures HandsOk(s.workers, PushJob(c, s).ledger)
  {
    forall w | 0 <= w < |s.workers|
      ensures HandOk(w, s.workers[w], PushJob(c, s).ledger)
    {
      assert HandOk(w, s.workers[w], s.ledger);
    }
  }

  lemma WaitsLonger(pushed: seq<Job>, taken: nat, job: Job, added: Job)
    requires taken <= |pushed|
    ensures Waits(pushed, taken, job) ==> Waits(pushed + [added], taken, job)
    ensures Waits(pushed + [added], taken, added)
  {
    assert (pushed + [added])[|pushed|] == added;
    if Waits(pushed, taken, job) {
      var i :| taken <= i < |pushed| && pushed[i] == job;
      assert (pushed + [added])[i] == job;
    }
  }

  lemma PushKeepsCover(c: Config, s: State)
    requires s.producer.Sending? && ProducerOk(c.files, s.producer, s.sources, s.ledger) && s.taken <= |s.pushed|
    requires CoverOk(s.pushed, s.taken, s.workers, s.ledger)
    ensures CoverOk(PushJob(c, s).pushed, s.taken, s.workers, PushJob(c, s).ledger)
  {
    var s' := PushJob(c, s);
    var job := s'.pushed[|s.pushed|];
    forall f, p: nat | f in s'.ledger && p < s'.ledger[f].sent && p !in s'.ledger[f].zeros
      ensures Covered(s'.pushed, s.taken, s.workers, f, p)
    {
      WaitsLonger(s.pushed, s.taken, Job(f, p, false), job);
      assert p < s.ledger[f].sent ==> Covered(s.pushed, s.taken, s.workers, f, p);
    }
  }

  lemma PushKeepsSerials(workers: seq<Worker>, pushed: seq<Job>, taken: nat, finished: set<nat>, job: Job)
    requires SerialsOk(workers, pushed, taken, finished)
    ensures SerialsOk(workers, pushed + [job], taken, finished)
  {
    forall w | 0 <= w < |workers|
      ensures BusyOk(workers[w], pushed + [job], taken, finished)
    {
      assert BusyOk(workers[w], pushed, taken, finished);
    }
  }

  /** Room that was seen is still there: only the producer adds. */
  lemma PushKeepsQueue(c: Config, s: State)
    requires s.producer.Sending? && s.producer.room && s.producer.i < |c.files|
    requires QueueOk(c.maxQueueSize, s.producer, s.queue, s.doneAdding, s.pushed, s.taken)
    ensures var s' := PushJob(c, s); QueueOk(c.maxQueueSize, s'.producer, s'.queue, s'.doneAdding, s'.pushed, s'.taken)
  {
    var job := PushJob(c, s).pushed[|s.pushed|];
    assert (s.pushed + [job])[s.taken..] == s.pushed[s.taken..] + [job];
  }

  lemma PushKeepsSendingSide(c: Config, s: State)
    requires Inv(c, s) && s.producer.Sending?
    ensures var s' := PushJob(c, s);
            Holds(Books, c, s') && Holds(Producing, c, s') && Holds(Sent, c, s') && Holds(Hands, c, s')
  {
    assert Holds(Books, c, s) && Holds(Producing, c, s) && Holds(Sent, c, s) && Holds(Hands, c, s);
    PushKeepsBooks(c, s);
    PushKeepsProducing(c, s);
    PushKeepsSent(c, s);
    PushKeepsHands(c, s);
  }

  lemma PushKeepsJobSide(c: Config, s: State)
    requires Inv(c, s) && s.producer.Sending?
    ensures Holds(Jobs, c, PushJob(c, s)) && Holds(Cover, c, PushJob(c, s))
  {
    assert Holds(Queue, c, s) && Holds(Books, c, s) && Holds(Producing, c, s) && Holds(Jobs, c, s)
           && Holds(Cover, c, s);
    PushKeepsJobs(c, s);
    PushKeepsCover(c, s);
  }

  lemma PushKeepsQueueSide(c: Config, s: State)
    requires Inv(c, s) && s.producer.Sending? && s.producer.room
    ensures Holds(Queue, c, PushJob(c, s)) && Holds(Exits, c, PushJob(c, s)) && Holds(Serials, c, PushJob(c, s))
  {
    assert Holds(Queue, c, s) && Holds(Exits, c, s) && Holds(Serials, c, s) && Holds(Producing, c, s);
    PushKeepsQueue(c, s);
    PushKeepsSerials(s.workers, s.pushed, s.taken, s.finished, PushJob(c, s).pushed[|s.pushed|]);
  }

  lemma PushKeeps(c: Config, s: State)
    requires Inv(c, s) && s.producer.Sending? && s.producer.room
    ensures Inv(c, PushJob(c, s))
  {
    PushKeepsSendingSide(c, s);
    PushKeepsJobSide(c, s);
    PushKeepsQueueSide(c, s);
    assert Holds(Database, c, s);
  }

  // ---------- a worker polls and takes a job ----------

  /** A worker without a job stays without one. */
  lemma IdleKeeps(c: Config, s: State, w: nat, worker: Worker)
    requires w < |s.workers| && !s.workers[w].Busy? && !worker.Busy?
    requires SerialsOk(s.workers, s.pushed, s.taken, s.finished) && HandsOk(s.workers, s.ledger)
    requires CoverOk(s.pushed, s.taken, s.workers, s.ledger) && StoredOk(s.stored, s.sources, s.workers)
    ensures var workers' := s.workers[w := worker];
            && SerialsOk(workers', s.pushed, s.taken, s.finished) && HandsOk(workers', s.ledger)
            && CoverOk(s.pushed, s.taken, workers', s.ledger) && StoredOk(s.stored, s.sources, workers')
  {
    SerialsKept(s.workers, s.pushed, s.taken, s.finished, w, worker);
    HandsKept(s.workers, s.ledger, w, worker);
    CoverKept(s.pushed, s.taken, s.workers, s.ledger, w, worker);
    StoredKept(s.stored, s.sources, s.workers, w, worker);
  }

  lemma NoJobKeeps(c: Config, s: State, w: nat, worker: Worker)
    requires Inv(c, s) && w < |s.workers| && !s.workers[w].Busy? && !worker.Busy?
    requires worker.Exited? ==> s.doneAdding && s.queue == []
    ensures Inv(c, s.(workers := s.workers[w := worker]))
  {
    assert Holds(Serials, c, s) && Holds(Hands, c, s) && Holds(Cover, c, s) && Holds(Database, c, s);
    IdleKeeps(c, s, w, worker);
    assert Holds(Queue, c, s) && Holds(Exits, c, s) && Holds(Books, c, s) && Holds(Jobs, c, s);
    assert Holds(Sent, c, s) && Holds(Producing, c, s);
  }

  lemma PollKeeps(c: Config, s: State, w: nat)
    requires Inv(c, s) && w < |s.workers| && s.workers[w].Checking?
    ensures Inv(c, PollQueue(s, w))
  {
    NoJobKeeps(c, s, w, PollQueue(s, w).workers[w]);
  }

  lemma TakeKeepsSerials(workers: seq<Worker>, pushed: seq<Job>, taken: nat, finished: set<nat>, w: nat, worker: Worker)
    requires SerialsOk(workers, pushed, taken, finished) && w < |workers| && !workers[w].Busy? && taken < |pushed|
    requires worker.Busy? && worker.serial == taken && worker.stack == [pushed[taken]]
    ensures SerialsOk(workers[w := worker], pushed, taken + 1, finished)
  {
    var workers' := workers[w := worker];
    forall i | 0 <= i < taken + 1 && i !in finished
      ensures Held(workers', i)
    {
      if i == taken {
        assert HeldBy(workers'[w], i);
      } else {
        var v :| 0 <= v < |workers| && HeldBy(workers[v], i);
        assert HeldBy(workers'[v], i);
      }
    }
    forall v | 0 <= v < |workers'|
      ensures BusyOk(workers'[v], pushed, taken + 1, finished)
    {
      assert BusyOk(workers[v], pushed, taken, finished);
    }
  }

  lemma TakeKeepsCover(pushed: seq<Job>, taken: nat, workers: seq<Worker>, ledger: map<ByteString, Ledger>, w: nat,
                       worker: Worker)
    requires CoverOk(pushed, taken, workers, ledger) && w < |workers| && !workers[w].Busy? && taken < |pushed|
    requires worker == Busy(taken, [pushed[taken]], StageOf(pushed[taken].disabled))
    ensures CoverOk(pushed, taken + 1, workers[w := worker], ledger)
  {
    var workers' := workers[w := worker];
    forall f, p: nat | f in ledger && p < ledger[f].sent && p !in ledger[f].zeros
      ensures Covered(pushed, taken + 1, workers', f, p)
    {
      var job := Job(f, p, false);
      assert Covered(pushed, taken, workers, f, p);
      if InHand(workers, job) {
        var v :| 0 <= v < |workers| && Hashes(workers[v], job);
        assert Hashes(workers'[v], job);
      } else {
        var i :| taken <= i < |pushed| && pushed[i] == job;
        assert i == taken ==> Hashes(workers'[w], job);
      }
    }
  }

  lemma TakeKeepsQueueSide(c: Config, s: State, w: nat)
    requires Inv(c, s) && w < |s.workers| && s.workers[w].Popping? && s.queue != []
    ensures Holds(Queue, c, PopJob(s, w)) && Holds(Exits, c, PopJob(s, w)) && Holds(Serials, c, PopJob(s, w))
    ensures s.taken < |s.pushed| && s.queue[0] == s.pushed[s.taken]
  {
    assert Holds(Queue, c, s) && Holds(Exits, c, s) && Holds(Serials, c, s);
    assert s.queue[1..] == s.pushed[s.taken + 1..];
    TakeKeepsSerials(s.workers, s.pushed, s.taken, s.finished, w, PopJob(s, w).workers[w]);
  }

  lemma TakeKeepsJobSide(c: Config, s: State, w: nat)
    requires Inv(c, s) && w < |s.workers| && s.workers[w].Popping? && s.queue != []
    requires s.taken < |s.pushed| && s.queue[0] == s.pushed[s.taken]
    ensures Holds(Jobs, c, PopJob(s, w)) && Holds(Hands, c, PopJob(s, w))
  {
    assert Holds(Jobs, c, s) && Holds(Hands, c, s);
    assert JobOk(s.pushed[s.taken], s.ledger, true);
    HandsKept(s.workers, s.ledger, w, PopJob(s, w).workers[w]);
    TakeKeepsJobs(s.pushed, s.taken, s.ledger);
  }

  lemma TakeKeepsCoverSide(c: Config, s: State, w: nat)
    requires Inv(c, s) && w < |s.workers| && s.workers[w].Popping? && s.queue != []
    requires s.taken < |s.pushed| && s.queue[0] == s.pushed[s.taken]
    ensures Holds(Cover, c, PopJob(s, w)) && Holds(Database, c, PopJob(s, w))
  {
    assert Holds(Cover, c, s) && Holds(Database, c, s);
    TakeKeepsCover(s.pushed, s.taken, s.workers, s.ledger, w, PopJob(s, w).workers[w]);
    StoredKept(s.stored, s.sources, s.workers, w, PopJob(s, w).workers[w]);
  }

  lemma PopKeeps(c: Config, s: State, w: nat)
    requires Inv(c, s) && w < |s.workers| && s.workers[w].Popping?
    ensures Inv(c, PopJob(s, w))
  {
    if s.queue == [] {
      NoJobKeeps(c, s, w, Checking);
    } else {
      TakeKeepsQueueSide(c, s, w);
      TakeKeepsJobSide(c, s, w);
      TakeKeepsCoverSide(c, s, w);
      assert Holds(Books, c, s) && Holds(Producing, c, s) && Holds(Sent, c, s);
    }
  }

  lemma TakeKeepsJobs(pushed: seq<Job>, taken: nat, ledger: map<ByteString, Ledger>)
    requires JobsOk(pushed, taken, ledger)
    ensures JobsOk(pushed, taken + 1, ledger)
  {
    forall i | 0 <= i < |pushed|
      ensures JobOk(pushed[i], ledger, i >= taken + 1)
    {
      assert JobOk(pushed[i], ledger, i >= taken);
    }
  }

  // ---------- a worker counts a part ----------

  /** A source with an uncounted part is not complete, so the assertion that it is not
      "already done" holds. */
  lemma {:induction false} FewerThanTotal(m: map<nat, nat>, total: nat, p: nat)
    requires p < total && p !in m && forall k :: k in m ==> k < total
    ensures |m| < total
  {
    SetBelow(total);
    assert m.Keys <= Below(total) - {p};
    Subset(m.Keys, Below(total) - {p});
  }

  function Below(n: nat): set<nat> {
    if n == 0 then {} else Below(n - 1) + {n - 1}
  }

  lemma {:induction false} SetBelow(n: nat)
    ensures |Below(n)| == n
    ensures forall k: nat :: k in Below(n) <==> k < n
  {
    if n == 0 {
    } else {
      SetBelow(n - 1);
    }
  }

  lemma {:induction false} Subset(a: set<nat>, b: set<nat>)
    requires a <= b
    ensures |a| <= |b|
    ensures |a| == |b| ==> a == b
  {
    assert b == a + (b - a);
    assert |b| == |a| + |b - a|;
  }

  lemma MapGrows(m: map<nat, nat>, k: nat, v: nat)
    requires k !in m
    ensures |m[k := v]| == |m| + 1
  {
    assert m[k := v].Keys == m.Keys + {k};
  }

  lemma ReportedOk(source: Source, l: Ledger, p: nat, z: nat, n: nat)
    requires SourceOk(source, l) && p !in l.zeros && p < l.sent
    ensures SourceOk(source.WithPart(z, n), Reported(l, p, z, n)) && !Done(source)
  {
    SumUpdate(l.zeros, p, z);
    SumUpdate(l.nonprobatives, p, n);
    MapGrows(l.zeros, p, z);
    FewerThanTotal(l.zeros, source.partsTotal, p);
    SameKeysAfter(l.zeros, l.nonprobatives, p, z, n);
  }

  lemma SameKeysAfter(zeros: map<nat, nat>, nonprobatives: map<nat, nat>, p: nat, z: nat, n: nat)
    requires zeros.Keys == nonprobatives.Keys
    ensures zeros[p := z].Keys == nonprobatives[p := n].Keys == zeros.Keys + {p}
  {
  }

  /** No other worker, and no waiting job, has the part that worker w counts. */
  lemma PartHasOneOwner(s: State, w: nat, v: nat)
    requires HandsOk(s.workers, s.ledger) && SerialsOk(s.workers, s.pushed, s.taken, s.finished)
    requires JobsOk(s.pushed, s.taken, s.ledger)
    requires IsAt(s, w, Hashing) && IsAt(s, v, Hashing) && v != w
    ensures Top(s.workers[v]) != Top(s.workers[w])
  {
    assert HandOk(w, s.workers[w], s.ledger) && HandOk(v, s.workers[v], s.ledger);
    assert BusyOk(s.workers[w], s.pushed, s.taken, s.finished) && BusyOk(s.workers[v], s.pushed, s.taken, s.finished);
  }

  lemma WaitingIsOther(s: State, w: nat, i: nat)
    requires HandsOk(s.workers, s.ledger) && SerialsOk(s.workers, s.pushed, s.taken, s.finished)
    requires JobsOk(s.pushed, s.taken, s.ledger)
    requires IsAt(s, w, Hashing) && s.taken <= i < |s.pushed|
    ensures s.pushed[i] != Top(s.workers[w])
  {
    assert HandOk(w, s.workers[w], s.ledger);
    assert BusyOk(s.workers[w], s.pushed, s.taken, s.finished);
    assert JobOk(s.pushed[i], s.ledger, true);
  }

  lemma TrackKeepsJobs(s: State, w: nat, z: nat, n: nat)
    requires HandsOk(s.workers, s.ledger) && SerialsOk(s.workers, s.pushed, s.taken, s.finished)
    requires JobsOk(s.pushed, s.taken, s.ledger) && IsAt(s, w, Hashing)
    ensures JobsOk(s.pushed, s.taken, TrackPart(s, w, z, n).ledger)
  {
    var s' := TrackPart(s, w, z, n);
    forall i | 0 <= i < |s.pushed|
      ensures JobOk(s.pushed[i], s'.ledger, i >= s.taken)
    {
      assert JobOk(s.pushed[i], s.ledger, i >= s.taken);
      assert HandOk(w, s.workers[w], s.ledger);
      if i >= s.taken {
        WaitingIsOther(s, w, i);
      }
    }
  }

  lemma TrackKeepsHands(s: State, w: nat, z: nat, n: nat)
    requires HandsOk(s.workers, s.ledger) && SerialsOk(s.workers, s.pushed, s.taken, s.finished)
    requires JobsOk(s.pushed, s.taken, s.ledger) && IsAt(s, w, Hashing)
    ensures HandsOk(TrackPart(s, w, z, n).workers, TrackPart(s, w, z, n).ledger)
  {
    var s' := TrackPart(s, w, z, n);
    assert HandOk(w, s.workers[w], s.ledger);
    forall v | 0 <= v < |s.workers| && v != w
      ensures HandOk(v, s'.workers[v], s'.ledger)
    {
      TrackKeepsOtherHand(s, w, z, n, v);
    }
    forall v | 0 <= v < |s.workers|
      ensures HandOk(v, s'.workers[v], s'.ledger)
    {
      assert v == w ==> HandOk(w, s'.workers[w], s'.ledger);
    }
  }

  lemma TrackKeepsOtherHand(s: State, w: nat, z: nat, n: nat, v: nat)
    requires HandsOk(s.workers, s.ledger) && SerialsOk(s.workers, s.pushed, s.taken, s.finished)
    requires JobsOk(s.pushed, s.taken, s.ledger) && IsAt(s, w, Hashing) && v < |s.workers| && v != w
    ensures HandOk(v, TrackPart(s, w, z, n).workers[v], TrackPart(s, w, z, n).ledger)
  {
    assert HandOk(v, s.workers[v], s.ledger);
    assert HandOk(w, s.workers[w], s.ledger);
    if IsAt(s, v, Hashing) {
      PartHasOneOwner(s, w, v);
    }
  }

  lemma TrackKeepsCover(s: State, w: nat, z: nat, n: nat)
    requires CoverOk(s.pushed, s.taken, s.workers, s.ledger) && IsAt(s, w, Hashing)
    requires !Top(s.workers[w]).disabled
    ensures CoverOk(s.pushed, s.taken, TrackPart(s, w, z, n).workers, TrackPart(s, w, z, n).ledger)
  {
    var s' := TrackPart(s, w, z, n);
    forall f, p: nat | f in s'.ledger && p < s'.ledger[f].sent && p !in s'.ledger[f].zeros
      ensures Covered(s.pushed, s.taken, s'.workers, f, p)
    {
      var job := Job(f, p, false);
      assert Covered(s.pushed, s.taken, s.workers, f, p);
      if InHand(s.workers, job) {
        var v :| 0 <= v < |s.workers| && Hashes(s.workers[v], job);
        assert Hashes(s'.workers[v], job);
      }
    }
  }

  lemma TrackKeepsBooks(c: Config, s: State, w: nat, z: nat, n: nat)
    requires LedgerOk(s.sources, s.ledger, c.preexisting) && IsAt(s, w, Hashing)
    requires HandOk(w, s.workers[w], s.ledger)
    ensures var s' := TrackPart(s, w, z, n);
            LedgerOk(s'.sources, s'.ledger, c.preexisting) && s'.failed == s.failed
    ensures Top(s.workers[w]).fileHash in s.sources && !Done(s.sources[Top(s.workers[w]).fileHash])
  {
    var job := Top(s.workers[w]);
    ReportedOk(s.sources[job.fileHash], s.ledger[job.fileHash], job.part, z, n);
  }

  /** The source that this part completes was neither stored nor about to be. */
  lemma TrackKeepsDatabase(s: State, w: nat, z: nat, n: nat)
    requires StoredOk(s.stored, s.sources, s.workers) && IsAt(s, w, Hashing)
    requires var f := Top(s.workers[w]).fileHash; f in s.sources && f in s.ledger && !Done(s.sources[f])
    ensures StoredOk(s.stored, TrackPart(s, w, z, n).sources, TrackPart(s, w, z, n).workers)
  {
    var s', f := TrackPart(s, w, z, n), Top(s.workers[w]).fileHash;
    forall v | 0 <= v < |s.workers|
      ensures StorerOk(s'.workers[v], s.stored, s'.sources) && (v != w ==> !Stores(s'.workers[v], f))
    {
      assert StorerOk(s.workers[v], s.stored, s.sources);
    }
    forall g | g in s'.sources && Done(s'.sources[g]) && !InLog(s.stored, g)
      ensures SomeStores(s'.workers, g)
    {
      if g == f {
        assert Stores(s'.workers[w], f);
      } else {
        var v :| 0 <= v < |s.workers| && Stores(s.workers[v], g);
        assert Stores(s'.workers[v], g);
      }
    }
    forall v, u, g | 0 <= v < u < |s.workers| && Stores(s'.workers[v], g)
      ensures !Stores(s'.workers[u], g)
    {
      assert v != w && u != w ==> Stores(s.workers[v], g);
    }
  }

  lemma TrackKeepsSending(c: Config, s: State, w: nat, z: nat, n: nat)
    requires SentOk(c.files, s.producer, s.sources, s.ledger, s.aborted) && IsAt(s, w, Hashing)
    requires ProducerOk(c.files, s.producer, s.sources, s.ledger)
    ensures var s' := TrackPart(s, w, z, n);
            && SentOk(c.files, s.producer, s'.sources, s'.ledger, s.aborted)
            && ProducerOk(c.files, s.producer, s'.sources, s'.ledger)
  {
  }

  lemma TrackKeepsBookSide(c: Config, s: State, w: nat, z: nat, n: nat)
    requires Inv(c, s) && IsAt(s, w, Hashing)
    ensures var s' := TrackPart(s, w, z, n);
            && !s'.failed && Holds(Books, c, s') && Holds(Sent, c, s') && Holds(Producing, c, s')
            && Holds(Database, c, s')
  {
    assert Holds(Books, c, s) && Holds(Sent, c, s) && Holds(Producing, c, s) && Holds(Hands, c, s)
           && Holds(Database, c, s);
    assert HandOk(w, s.workers[w], s.ledger);
    TrackKeepsBooks(c, s, w, z, n);
    TrackKeepsDatabase(s, w, z, n);
    TrackKeepsSending(c, s, w, z, n);
  }

  lemma TrackKeepsJobSide(c: Config, s: State, w: nat, z: nat, n: nat)
    requires Inv(c, s) && IsAt(s, w, Hashing)
    ensures var s' := TrackPart(s, w, z, n);
            Holds(Jobs, c, s') && Holds(Hands, c, s') && Holds(Serials, c, s') && Holds(Cover, c, s')
  {
    assert Holds(Serials, c, s) && Holds(Jobs, c, s) && Holds(Hands, c, s) && Holds(Cover, c, s);
    TrackKeepsJobs(s, w, z, n);
    TrackKeepsHands(s, w, z, n);
    assert HandOk(w, s.workers[w], s.ledger);
    TrackKeepsCover(s, w, z, n);
    SerialsKept(s.workers, s.pushed, s.taken, s.finished, w, TrackPart(s, w, z, n).workers[w]);
  }

  lemma TrackKeeps(c: Config, s: State, w: nat, z: nat, n: nat)
    requires Inv(c, s) && IsAt(s, w, Hashing)
    ensures Inv(c, TrackPart(s, w, z, n))
  {
    TrackKeepsBookSide(c, s, w, z, n);
    TrackKeepsJobSide(c, s, w, z, n);
    assert Holds(Queue, c, s) && Holds(Exits, c, s);
  }

  // ---------- a worker stores a complete source ----------

  lemma StoreKeepsDatabase(s: State, w: nat)
    requires StoredOk(s.stored, s.sources, s.workers)
    requires w < |s.workers| && s.workers[w].Busy? && s.workers[w].stage.Storing?
    ensures StoredOk(StoreSource(s, w).stored, s.sources, StoreSource(s, w).workers)
  {
    var s', r := StoreSource(s, w), s.workers[w].stage.record;
    assert StorerOk(s.workers[w], s.stored, s.sources) && Stores(s.workers[w], r.fileHash);
    assert s'.stored[|s.stored|] == r;
    forall f | InLog(s.stored, f) || f == r.fileHash
      ensures InLog(s'.stored, f)
    {
      if f != r.fileHash {
        var i :| 0 <= i < |s.stored| && s.stored[i].fileHash == f;
        assert s'.stored[i].fileHash == f;
      }
    }
    StoreKeepsWorkers(s, w);
    forall f | f in s.sources && Done(s.sources[f]) && !InLog(s'.stored, f)
      ensures SomeStores(s'.workers, f)
    {
      var v :| 0 <= v < |s.workers| && Stores(s.workers[v], f);
      assert Stores(s'.workers[v], f);
    }
  }

  lemma StoreKeepsWorkers(s: State, w: nat)
    requires StoredOk(s.stored, s.sources, s.workers)
    requires w < |s.workers| && s.workers[w].Busy? && s.workers[w].stage.Storing?
    ensures var s' := StoreSource(s, w);
            && (forall v :: 0 <= v < |s'.workers| ==> StorerOk(s'.workers[v], s'.stored, s.sources))
            && (forall v, u, f :: 0 <= v < u < |s'.workers| && Stores(s'.workers[v], f) ==> !Stores(s'.workers[u], f))
            && (forall i :: 0 <= i < |s.stored| ==> s.stored[i].fileHash != s.workers[w].stage.record.fileHash)
  {
    var s', r := StoreSource(s, w), s.workers[w].stage.record;
    assert StorerOk(s.workers[w], s.stored, s.sources) && Stores(s.workers[w], r.fileHash);
    forall v | 0 <= v < |s'.workers|
      ensures StorerOk(s'.workers[v], s'.stored, s.sources)
    {
      assert StorerOk(s.workers[v], s.stored, s.sources);
      if s'.workers[v].Busy? && s'.workers[v].stage.Storing? {
        assert Stores(s.workers[v], s'.workers[v].stage.record.fileHash);
      }
    }
    forall v, u, f | 0 <= v < u < |s'.workers| && Stores(s'.workers[v], f)
      ensures !Stores(s'.workers[u], f)
    {
      assert v != w && u != w ==> Stores(s.workers[v], f);
    }
  }

  /** A step of a busy worker that is not hashing, on the parts about its job. */
  lemma BusyKeeps(c: Config, s: State, w: nat, worker: Worker)
    requires Inv(c, s) && w < |s.workers| && s.workers[w].Busy? && s.workers[w].stage != Hashing
    requires worker.Busy? && worker.stage != Hashing
    requires worker.serial == s.workers[w].serial && worker.stack != [] && s.workers[w].stack != []
             && worker.stack[0] == s.workers[w].stack[0]
    ensures var s' := s.(workers := s.workers[w := worker]);
            Holds(Exits, c, s') && Holds(Serials, c, s') && Holds(Hands, c, s') && Holds(Cover, c, s')
  {
    assert Holds(Exits, c, s) && Holds(Serials, c, s) && Holds(Hands, c, s) && Holds(Cover, c, s);
    SerialsKept(s.workers, s.pushed, s.taken, s.finished, w, worker);
    HandsKept(s.workers, s.ledger, w, worker);
    CoverKept(s.pushed, s.taken, s.workers, s.ledger, w, worker);
    ExitsKept(s.workers, s.doneAdding, s.queue, w, worker);
  }

  lemma StackNotEmpty(c: Config, s: State, w: nat)
    requires Inv(c, s) && w < |s.workers| && s.workers[w].Busy?
    ensures s.workers[w].stack != []
  {
    assert Holds(Serials, c, s);
    assert BusyOk(s.workers[w], s.pushed, s.taken, s.finished);
  }

  lemma StoreKeeps(c: Config, s: State, w: nat)
    requires Inv(c, s) && w < |s.workers| && s.workers[w].Busy? && s.workers[w].stage.Storing?
    ensures Inv(c, StoreSource(s, w))
  {
    StackNotEmpty(c, s, w);
    BusyKeeps(c, s, w, StoreSource(s, w).workers[w]);
    assert Holds(Database, c, s);
    StoreKeepsDatabase(s, w);
    assert Holds(Queue, c, s) && Holds(Books, c, s) && Holds(Jobs, c, s) && Holds(Sent, c, s) && Holds(Producing, c, s);
    var s' := s.(workers := StoreSource(s, w).workers);
    assert Holds(Exits, c, s') && Holds(Serials, c, s') && Holds(Hands, c, s') && Holds(Cover, c, s');
  }

  // ---------- a worker finishes a job ----------

  lemma FinishKeepsSerials(workers: seq<Worker>, pushed: seq<Job>, taken: nat, finished: set<nat>, w: nat)
    requires SerialsOk(workers, pushed, taken, finished) && w < |workers| && workers[w].Busy?
    ensures SerialsOk(workers[w := Checking], pushed, taken, finished + {workers[w].serial})
  {
    var workers' := workers[w := Checking];
    assert BusyOk(workers[w], pushed, taken, finished);
    forall v | 0 <= v < |workers|
      ensures BusyOk(workers'[v], pushed, taken, finished + {workers[w].serial})
    {
      assert BusyOk(workers[v], pushed, taken, finished);
    }
    forall i | 0 <= i < taken && i !in finished && i != workers[w].serial
      ensures Held(workers', i)
    {
      var v :| 0 <= v < |workers| && HeldBy(workers[v], i);
      assert HeldBy(workers'[v], i);
    }
  }

  lemma LastJobKeeps(c: Config, s: State, w: nat)
    requires Inv(c, s) && IsAt(s, w, Recursing) && |s.workers[w].stack| == 1
    ensures Inv(c, FinishJob(s, w))
  {
    LastJobKeepsWorkers(c, s, w);
    assert Holds(Queue, c, s) && Holds(Books, c, s) && Holds(Jobs, c, s) && Holds(Sent, c, s) && Holds(Producing, c, s);
  }

  lemma LastJobKeepsWorkers(c: Config, s: State, w: nat)
    requires Inv(c, s) && IsAt(s, w, Recursing) && |s.workers[w].stack| == 1
    ensures var s' := FinishJob(s, w);
            && Holds(Exits, c, s') && Holds(Serials, c, s') && Holds(Hands, c, s') && Holds(Cover, c, s')
            && Holds(Database, c, s') && !s'.failed
  {
    assert Holds(Exits, c, s) && Holds(Serials, c, s) && Holds(Hands, c, s) && Holds(Cover, c, s)
           && Holds(Database, c, s);
    FinishKeepsSerials(s.workers, s.pushed, s.taken, s.finished, w);
    HandsKept(s.workers, s.ledger, w, Checking);
    CoverKept(s.pushed, s.taken, s.workers, s.ledger, w, Checking);
    StoredKept(s.stored, s.sources, s.workers, w, Checking);
  }

  lemma InnerJobKeeps(c: Config, s: State, w: nat)
    requires Inv(c, s) && IsAt(s, w, Recursing) && |s.workers[w].stack| > 1
    ensures Inv(c, FinishJob(s, w))
  {
    BusyKeeps(c, s, w, FinishJob(s, w).workers[w]);
    assert Holds(Database, c, s);
    StoredKept(s.stored, s.sources, s.workers, w, FinishJob(s, w).workers[w]);
    assert Holds(Queue, c, s) && Holds(Books, c, s) && Holds(Jobs, c, s) && Holds(Sent, c, s) && Holds(Producing, c, s);
  }

  // ---------- a worker recurses ----------

  /** The source that recursion adds, if it is new. */
  lemma RecurseKeepsBookSide(c: Config, s: State, w: nat, f: ByteString, filesize: nat)
    requires Inv(c, s) && IsAt(s, w, Recursing)
    ensures var s' := RecurseInto(c, s, w, f, filesize);
            && Extends(s.ledger, s'.ledger) && Extends(s.sources, s'.sources)
            && Holds(Books, c, s') && StoredOk(s.stored, s'.sources, s.workers)
  {
    assert Holds(Books, c, s) && Holds(Database, c, s);
    if IsNew(s.sources, c.preexisting, f) {
      NewSourceOk(filesize, 1, FromWorker(w), 1);
      LedgerExtended(s.sources, s.ledger, c.preexisting, f, Source(filesize, 1, 0, 0, 0),
                     Ledger(FromWorker(w), 1, map[], map[]));
      StoredExtended(s.stored, s.sources, s.workers, f, Source(filesize, 1, 0, 0, 0));
    }
  }

  lemma RecurseKeepsSending(c: Config, s: State, w: nat, f: ByteString, filesize: nat)
    requires Inv(c, s) && IsAt(s, w, Recursing)
    ensures var s' := RecurseInto(c, s, w, f, filesize); Holds(Sent, c, s') && Holds(Producing, c, s')
  {
    assert Holds(Books, c, s) && Holds(Sent, c, s) && Holds(Producing, c, s);
  }

  lemma RecurseKeepsHands(c: Config, s: State, w: nat, f: ByteString, filesize: nat)
    requires IsAt(s, w, Recursing) && HandsOk(s.workers, s.ledger)
    requires Extends(s.ledger, RecurseInto(c, s, w, f, filesize).ledger)
    ensures HandsOk(RecurseInto(c, s, w, f, filesize).workers, RecurseInto(c, s, w, f, filesize).ledger)
  {
    var s' := RecurseInto(c, s, w, f, filesize);
    HandsExtended(s.workers, s.ledger, s'.ledger);
    assert HandOk(w, s'.workers[w], s'.ledger);
    HandsKept(s.workers, s'.ledger, w, s'.workers[w]);
  }

  lemma RecurseKeepsCover(c: Config, s: State, w: nat, f: ByteString, filesize: nat)
    requires IsAt(s, w, Recursing) && CoverOk(s.pushed, s.taken, s.workers, s.ledger)
    ensures var s' := RecurseInto(c, s, w, f, filesize); CoverOk(s.pushed, s.taken, s'.workers, s'.ledger)
  {
    var s' := RecurseInto(c, s, w, f, filesize);
    CoverKept(s.pushed, s.taken, s.workers, s.ledger, w, s'.workers[w]);
    forall g, p: nat | g in s'.ledger && p < s'.ledger[g].sent && p !in s'.ledger[g].zeros
      ensures Covered(s.pushed, s.taken, s'.workers, g, p)
    {
      if s'.ledger != s.ledger && g == f {
        assert Hashes(s'.workers[w], Job(f, 0, false));
      }
    }
  }

  lemma RecurseKeepsJobSide(c: Config, s: State, w: nat, f: ByteString, filesize: nat)
    requires Inv(c, s) && IsAt(s, w, Recursing)
    requires Extends(s.ledger, RecurseInto(c, s, w, f, filesize).ledger)
    ensures var s' := RecurseInto(c, s, w, f, filesize);
            Holds(Jobs, c, s') && Holds(Hands, c, s') && Holds(Cover, c, s') && Holds(Serials, c, s')
              && Holds(Exits, c, s')
  {
    var s' := RecurseInto(c, s, w, f, filesize);
    assert Holds(Jobs, c, s) && Holds(Hands, c, s) && Holds(Cover, c, s) && Holds(Serials, c, s) && Holds(Exits, c, s);
    JobsExtended(s.pushed, s.taken, s.ledger, s'.ledger);
    RecurseKeepsHands(c, s, w, f, filesize);
    RecurseKeepsCover(c, s, w, f, filesize);
    SerialsKept(s.workers, s.pushed, s.taken, s.finished, w, s'.workers[w]);
    ExitsKept(s.workers, s.doneAdding, s.queue, w, s'.workers[w]);
  }

  lemma RecurseKeeps(c: Config, s: State, w: nat, f: ByteString, filesize: nat)
    requires Inv(c, s) && IsAt(s, w, Recursing)
    ensures Inv(c, RecurseInto(c, s, w, f, filesize))
  {
    var s' := RecurseInto(c, s, w, f, filesize);
    RecurseKeepsBookSide(c, s, w, f, filesize);
    RecurseKeepsSending(c, s, w, f, filesize);
    RecurseKeepsJobSide(c, s, w, f, filesize);
    StoredKept(s.stored, s'.sources, s.workers, w, s'.workers[w]);
    assert Holds(Queue, c, s);
  }

  // ---------- every run ----------

  lemma NextKeeps(c: Config, s: State, e: Event)
    requires Inv(c, s)
    ensures Inv(c, Next(c, s, e))
  {
    if Next(c, s, e) != s {
      match e
      case Open(readable) => OpenKeeps(c, s, readable);
      case Check => CheckKeeps(c, s);
      case ReadFails => AbortKeeps(c, s);
      case Push => PushKeeps(c, s);
      case Poll(w) => PollKeeps(c, s, w);
      case Pop(w) => PopKeeps(c, s, w);
      case Track(w, z, n) => TrackKeeps(c, s, w, z, n);
      case Store(w) => StoreKeeps(c, s, w);
      case Recurse(w, f, size) => RecurseKeeps(c, s, w, f, size);
      case Finish(w) =>
        if |s.workers[w].stack| == 1 {
          LastJobKeeps(c, s, w);
        } else {
          InnerJobKeeps(c, s, w);
        }
    }
  }

  lemma InitOk(c: Config, workers: nat)
    ensures Inv(c, Init(workers))
  {
  }

  lemma {:induction false} ReachedOk(c: Config, workers: nat, events: seq<Event>, n: nat)
    requires n <= |events|
    ensures Inv(c, Reached(c, workers, events, n))
  {
    if n == 0 {
      InitOk(c, workers);
    } else {
      ReachedOk(c, workers, events, n - 1);
      NextKeeps(c, Reached(c, workers, events, n - 1), events[n - 1]);
    }
  }

  // ---------- what it comes to ----------

  ghost predicate AllExited(s: State) {
    s.workers != [] && forall w :: 0 <= w < |s.workers| ==> s.workers[w].Exited?
  }

  /** In every run the queue keeps its bound although check and push are separate, jobs
      leave it in the order they were pushed, and no two workers hold the same job. */
  lemma QueueBounded(c: Config, workers: nat, events: seq<Event>, n: nat)
    requires n <= |events|
    ensures var s := Reached(c, workers, events, n);
            && |s.queue| <= c.maxQueueSize
            && s.taken <= |s.pushed| && s.queue == s.pushed[s.taken..]
            && (forall v, w :: 0 <= v < w < |s.workers| && s.workers[v].Busy? && s.workers[w].Busy? ==>
                                 s.workers[v].serial != s.workers[w].serial)
  {
    ReachedOk(c, workers, events, n);
    var s := Reached(c, workers, events, n);
    assert Holds(Queue, c, s) && Holds(Serials, c, s);
  }

  /** When all workers have exited, adding was done, the queue is empty and every job
      that was pushed has been processed. */
  lemma AllJobsProcessed(c: Config, workers: nat, events: seq<Event>)
    requires AllExited(Reached(c, workers, events, |events|))
    ensures var s := Reached(c, workers, events, |events|);
            && s.doneAdding && s.queue == [] && s.taken == |s.pushed|
            && (forall i :: i in s.finished <==> 0 <= i < |s.pushed|)
  {
    ReachedOk(c, workers, events, |events|);
    var s := Reached(c, workers, events, |events|);
    assert Holds(Queue, c, s) && Holds(Serials, c, s) && Holds(Exits, c, s);
    assert s.workers[0].Exited?;
    assert s.pushed[s.taken..] == [];
    forall i | 0 <= i < |s.pushed|
      ensures i in s.finished
    {
      assert !Held(s.workers, i);
    }
  }

  /** The assertions in track_source never fail. */
  lemma TrackNeverFails(c: Config, workers: nat, events: seq<Event>, n: nat, w: nat)
    requires n <= |events| && IsAt(Reached(c, workers, events, n), w, Hashing)
    ensures var s := Reached(c, workers, events, n);
            !s.failed && Trackable(s.sources, Top(s.workers[w]).fileHash)
  {
    ReachedOk(c, workers, events, n);
    var s := Reached(c, workers, events, n);
    assert Holds(Hands, c, s) && Holds(Books, c, s);
    assert HandOk(w, s.workers[w], s.ledger);
    TrackKeepsBooks(c, s, w, 0, 0);
  }

  /** In every run no two workers hold the same part of a tracked source. */
  lemma PartsHaveOneOwner(c: Config, workers: nat, events: seq<Event>, n: nat, v: nat, w: nat)
    requires n <= |events| && v != w
    requires IsAt(Reached(c, workers, events, n), v, Hashing) && IsAt(Reached(c, workers, events, n), w, Hashing)
    ensures var s := Reached(c, workers, events, n);
            Top(s.workers[v]) != Top(s.workers[w])
  {
    ReachedOk(c, workers, events, n);
    var s := Reached(c, workers, events, n);
    assert Holds(Hands, c, s) && Holds(Serials, c, s) && Holds(Jobs, c, s);
    PartHasOneOwner(s, w, v);
  }

  /** A source is stored at most once, only when complete, and then with the sums of
      what was reported for each of its parts, each part once. */
  lemma StoredOnce(c: Config, workers: nat, events: seq<Event>, n: nat)
    requires n <= |events|
    ensures var s := Reached(c, workers, events, n);
            && (forall i, j :: 0 <= i < j < |s.stored| ==> s.stored[i].fileHash != s.stored[j].fileHash)
            && (forall r :: r in s.stored ==> r.fileHash in s.ledger && SumsOf(r.source, s.ledger[r.fileHash]))
  {
    ReachedOk(c, workers, events, n);
    var s := Reached(c, workers, events, n);
    assert Holds(Database, c, s) && Holds(Books, c, s);
    forall i | 0 <= i < |s.stored|
      ensures s.stored[i].fileHash in s.ledger && SumsOf(s.stored[i].source, s.ledger[s.stored[i].fileHash])
    {
      CompleteSums(s.stored[i].source, s.ledger[s.stored[i].fileHash]);
    }
  }

  ghost predicate SumsOf(source: Source, l: Ledger) {
    && (forall p :: p in l.zeros <==> 0 <= p < source.partsTotal) && l.nonprobatives.Keys == l.zeros.Keys
    && source.zeroCount == Sum(l.zeros) && source.nonprobativeCount == Sum(l.nonprobatives)
  }

  lemma CompleteSums(source: Source, l: Ledger)
    requires SourceOk(source, l) && Done(source)
    ensures SumsOf(source, l)
  {
    SetBelow(source.partsTotal);
    assert l.zeros.Keys <= Below(source.partsTotal);
    Subset(l.zeros.Keys, Below(source.partsTotal));
  }

  /** When all workers have exited, a source is stored exactly when all its parts were
      handed out; that fails only for a file whose later part could not be read. */
  lemma StoredExactlyOnce(c: Config, workers: nat, events: seq<Event>, f: ByteString)
    requires AllExited(Reached(c, workers, events, |events|))
    ensures var s := Reached(c, workers, events, |events|);
            && s.sources.Keys == s.ledger.Keys
            && (InLog(s.stored, f) <==> f in s.sources && s.ledger[f].sent == s.sources[f].partsTotal)
            && (f in s.sources && f !in s.aborted ==> InLog(s.stored, f))
  {
    ReachedOk(c, workers, events, |events|);
    AllJobsProcessed(c, workers, events);
    var s := Reached(c, workers, events, |events|);
    assert Holds(Database, c, s) && Holds(Books, c, s) && Holds(Queue, c, s) && Holds(Sent, c, s);
    if f in s.sources {
      AllCounted(c, s, f);
      assert !SomeStores(s.workers, f);
    }
  }

  lemma AllCounted(c: Config, s: State, f: ByteString)
    requires Inv(c, s) && AllExited(s) && s.taken == |s.pushed| && f in s.ledger && f in s.sources
    ensures s.sources[f].partsDone == s.ledger[f].sent
  {
    assert Holds(Cover, c, s) && Holds(Books, c, s);
    var l := s.ledger[f];
    SetBelow(l.sent);
    forall p: nat | p < l.sent
      ensures p in l.zeros
    {
      assert !Covered(s.pushed, s.taken, s.workers, f, p);
    }
    assert l.zeros.Keys == Below(l.sent);
  }
}
