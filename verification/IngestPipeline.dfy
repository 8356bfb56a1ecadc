/** Threaded ingest: one producer cuts files into jobs for a bounded queue, and any
    number of workers take jobs, count their parts, store complete sources and run
    recursed jobs inline. Every step is one critical section; steps interleave freely. */
module IngestPipeline {
  import opened ByteStrings
  import opened IngestObjects
  import opened IngestBuffers

  const MAX_DEPTH: nat := 7

  datatype File = File(fileHash: ByteString, filesize: nat)

  /** What one ingest run is given. */
  datatype Config = Config(files: seq<File>, maxQueueSize: nat, preexisting: set<ByteString>)

  datatype Producer =
    | AtFile(i: nat)
    | Sending(i: nat, offset: nat, disabled: bool, room: bool)
    | Finished

  /** What insert_source_data is given for a complete source. */
  datatype Record = Record(fileHash: ByteString, source: Source)

  /** Where a busy worker is with the job on top of its stack. The jobs below it wait
      in their recursive processing. */
  datatype Stage = Hashing | Storing(record: Record) | Recursing

  datatype Worker = Checking | Popping | Busy(serial: nat, stack: seq<Job>, stage: Stage) | Exited

  /** Who introduced a source, how many of its parts were handed out, and the counts
      that were reported for each part: kept to state what must hold. */
  datatype Origin = FromFile | FromWorker(w: nat)

  datatype Ledger = Ledger(origin: Origin, sent: nat, zeros: map<nat, nat>, nonprobatives: map<nat, nat>)

  datatype State = State(producer: Producer, queue: seq<Job>, doneAdding: bool, workers: seq<Worker>,
                         sources: map<ByteString, Source>, stored: seq<Record>, failed: bool,
                         pushed: seq<Job>, taken: nat, finished: set<nat>,
                         ledger: map<ByteString, Ledger>, aborted: set<ByteString>)

  function Init(workers: nat): State {
    State(AtFile(0), [], false, seq(workers, _ => Checking), map[], [], false, [], 0, {}, map[], {})
  }

  datatype Event =
    | Open(readable: bool)
    | Check
    | ReadFails
    | Push
    | Poll(w: nat)
    | Pop(w: nat)
    | Track(w: nat, zeroCount: nat, nonprobativeCount: nat)
    | Store(w: nat)
    | Recurse(w: nat, fileHash: ByteString, filesize: nat)
    | Finish(w: nat)

  function Next(c: Config, s: State, e: Event): State {
    match e
    case Open(readable) => if s.producer.AtFile? then OpenFile(c, s, readable) else s
    case Check => if s.producer.Sending? then CheckRoom(c, s) else s
    case ReadFails => if s.producer.Sending? && s.producer.offset > 0 && !s.producer.room then Abort(c, s) else s
    case Push => if s.producer.Sending? && s.producer.room then PushJob(c, s) else s
    case Poll(w) => if w < |s.workers| && s.workers[w].Checking? then PollQueue(s, w) else s
    case Pop(w) => if w < |s.workers| && s.workers[w].Popping? then PopJob(s, w) else s
    case Track(w, z, n) => if IsAt(s, w, Hashing) then TrackPart(s, w, z, n) else s
    case Store(w) =>
      if w < |s.workers| && s.workers[w].Busy? && s.workers[w].stage.Storing? then StoreSource(s, w) else s
    case Recurse(w, f, size) =>
      if IsAt(s, w, Recursing) && |s.workers[w].stack| <= MAX_DEPTH && size > 0 then RecurseInto(c, s, w, f, size)
      else s
    case Finish(w) => if IsAt(s, w, Recursing) then FinishJob(s, w) else s
  }

  predicate IsAt(s: State, w: nat, stage: Stage) {
    w < |s.workers| && s.workers[w].Busy? && s.workers[w].stage == stage && s.workers[w].stack != []
  }

  function Top(worker: Worker): Job
    requires worker.Busy? && worker.stack != []
  {
    worker.stack[|worker.stack| - 1]
  }

  function StageOf(disabled: bool): Stage {
    if disabled then Recursing else Hashing
  }

  // ---------- the producer ----------

  /** ingest up to add_source: unreadable and empty files are skipped. */
  function OpenFile(c: Config, s: State, readable: bool): State
    requires s.producer.AtFile?
  {
    var i := s.producer.i;
    if i >= |c.files| then s.(producer := Finished, doneAdding := true)
    else if !readable || c.files[i].filesize == 0 then s.(producer := AtFile(i + 1))
    else
      var f, size := c.files[i].fileHash, c.files[i].filesize;
      if IsNew(s.sources, c.preexisting, f) then
        s.(producer := Sending(i, 0, false, false),
        sources := s.sources[f := Source(size, PartsTotal(size), 0, 0, 0)],
        ledger := s.ledger[f := Ledger(FromFile, 0, map[], map[])])
      else s.(producer := Sending(i, 0, true, false))
  }

  function CheckRoom(c: Config, s: State): State
    requires s.producer.Sending?
  {
    s.(producer := s.producer.(room := |s.queue| < c.maxQueueSize))
  }

  /** A later part cannot be read: no more jobs for this file. */
  function Abort(c: Config, s: State): State
    requires s.producer.Sending?
  {
    var i := s.producer.i;
    s.(producer := AtFile(i + 1),
    aborted := if s.producer.disabled || i >= |c.files| then s.aborted else s.aborted + {c.files[i].fileHash})
  }

  function PushJob(c: Config, s: State): State
    requires s.producer.Sending?
  {
    var i, offset, disabled := s.producer.i, s.producer.offset, s.producer.disabled;
    if i >= |c.files| then s else
      var f, next := c.files[i].fileHash, offset + BUFFER_DATA_SIZE;
      var job := Job(f, offset / BUFFER_DATA_SIZE, disabled);
      s.(queue := s.queue + [job], pushed := s.pushed + [job],
      ledger := if disabled || f !in s.ledger then s.ledger
      else s.ledger[f := s.ledger[f].(sent := s.ledger[f].sent + 1)],
      producer := if next < c.files[i].filesize then Sending(i, next, disabled, false) else AtFile(i + 1))
  }

  // ---------- a worker ----------

  function PollQueue(s: State, w: nat): State
    requires w < |s.workers|
  {
    s.(workers := s.workers[w := if s.doneAdding && s.queue == [] then Exited else Popping])
  }

  function PopJob(s: State, w: nat): State
    requires w < |s.workers|
  {
    if s.queue == [] then s.(workers := s.workers[w := Checking]) else
      var job := s.queue[0];
      s.(queue := s.queue[1..], taken := s.taken + 1,
      workers := s.workers[w := Busy(s.taken, [job], StageOf(job.disabled))])
  }

  /** track_source; the counts are those of the job's buffer. */
  function TrackPart(s: State, w: nat, zeroCount: nat, nonprobativeCount: nat): State
    requires IsAt(s, w, Hashing)
  {
    var job := Top(s.workers[w]);
    var f := job.fileHash;
    if !Trackable(s.sources, f) || f !in s.ledger then s.(failed := true) else
      var source := s.sources[f].WithPart(zeroCount, nonprobativeCount);
      s.(sources := s.sources[f := source],
      ledger := s.ledger[f := Reported(s.ledger[f], job.part, zeroCount, nonprobativeCount)],
      workers := s.workers[w := s.workers[w].(stage := AfterTrack(f, source))])
  }

  function Reported(l: Ledger, part: nat, zeroCount: nat, nonprobativeCount: nat): Ledger {
    l.(zeros := l.zeros[part := zeroCount], nonprobatives := l.nonprobatives[part := nonprobativeCount])
  }

  function AfterTrack(f: ByteString, source: Source): Stage {
    if source.partsDone == source.partsTotal then Storing(Record(f, source)) else Recursing
  }

  /** insert_source_data, called after the tracker's lock is gone. */
  function StoreSource(s: State, w: nat): State
    requires w < |s.workers| && s.workers[w].Busy? && s.workers[w].stage.Storing?
  {
    s.(stored := s.stored + [s.workers[w].stage.record], workers := s.workers[w := s.workers[w].(stage := Recursing)])
  }

  /** Uncompressed data found in the job's buffer becomes a source of one part, and its
      job runs inline. */
  function RecurseInto(c: Config, s: State, w: nat, f: ByteString, filesize: nat): State
    requires IsAt(s, w, Recursing)
  {
    var isNew := IsNew(s.sources, c.preexisting, f);
    var s' := if isNew then s.(sources := s.sources[f := Source(filesize, 1, 0, 0, 0)],
                 ledger := s.ledger[f := Ledger(FromWorker(w), 1, map[], map[])]) else s;
    var worker := s.workers[w];
    s'.(workers := s.workers[w := worker.(stack := worker.stack + [Job(f, 0, !isNew)], stage := StageOf(!isNew))])
  }

  function FinishJob(s: State, w: nat): State
    requires IsAt(s, w, Recursing)
  {
    var worker := s.workers[w];
    if |worker.stack| > 1 then
      s.(workers := s.workers[w := worker.(stack := worker.stack[..|worker.stack| - 1])])
    else
      s.(workers := s.workers[w := Checking], finished := s.finished + {worker.serial})
  }

  /** The state after the first n events. */
  function Reached(c: Config, workers: nat, events: seq<Event>, n: nat): State
    requires n <= |events|
  {
    if n == 0 then Init(workers) else Next(c, Reached(c, workers, events, n - 1), events[n - 1])
  }
}
