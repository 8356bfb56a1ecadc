/** The job queue and the source tracker at work: any interleaving of the producer and the
    workers, one critical section at a time, on the objects that the threads share. */
module IngestRun {
  import opened ByteStrings
  import opened IngestBuffers
  import opened IngestObjects
  import opened IngestPipeline
  import IngestSafety

  class Run {
    const c: Config
    const queue: JobQueue
    const tracker: IngestTracker
    var producer: Producer
    var workers: seq<Worker>
    var stored: seq<Record>
    var taken: nat
    ghost var state: State

    /** The shared objects and the threads are those of the modelled state. */
    ghost predicate Matches()
      reads this, queue, tracker
    {
      && queue.maxQueueSize == c.maxQueueSize && tracker.preexisting == c.preexisting
      && queue.jobs == state.queue && queue.isDoneAdding == state.doneAdding && tracker.sources == state.sources
      && producer == state.producer && workers == state.workers && stored == state.stored && taken == state.taken
    }

    ghost predicate Valid()
      reads this, queue, tracker
    {
      Matches() && IngestSafety.Inv(c, state)
    }

    constructor (c: Config, workers: nat)
      ensures Valid() && fresh(queue) && fresh(tracker) && this.c == c && state == Init(workers)
    {
      this.c := c;
      queue := new JobQueue(c.maxQueueSize);
      tracker := new IngestTracker(c.preexisting);
      producer, this.workers, stored, taken := AtFile(0), seq(workers, _ => Checking), [], 0;
      state := Init(workers);
      new;
      IngestSafety.InitOk(c, workers);
    }

    // ---------- the producer ----------

    /** ingest, from one file to the next. */
    method OpenNext(readable: bool)
      requires Matches() && producer.AtFile?
      modifies this`producer, this`state, queue, tracker
      ensures Matches() && state == OpenFile(c, old(state), readable)
    {
      ghost var was := state;
      var i := producer.i;
      if i >= |c.files| {
        queue.DoneAdding();
        producer := Finished;
      } else if !readable || c.files[i].filesize == 0 {
        producer := AtFile(i + 1);
      } else {
        var size := c.files[i].filesize;
        var added := tracker.AddSource(c.files[i].fileHash, size, PartsTotal(size));
        producer := Sending(i, 0, !added, false);
      }
      state := OpenFile(c, was, readable);
    }

    /** push up to the end of its first critical section. */
    method LookForRoom()
      requires Matches() && producer.Sending?
      modifies this`producer, this`state
      ensures Matches() && state == CheckRoom(c, old(state))
    {
      var room := queue.HasRoom();
      producer := producer.(room := room);
      state := CheckRoom(c, state);
    }

    method GiveUp()
      requires Matches() && producer.Sending?
      modifies this`producer, this`state
      ensures Matches() && state == Abort(c, old(state))
    {
      producer := AtFile(producer.i + 1);
      state := Abort(c, state);
    }

    /** push's second critical section, and on to the next part. */
    method SendPart()
      requires Matches() && producer.Sending?
      modifies this`producer, this`state, queue
      ensures Matches() && state == PushJob(c, old(state))
    {
      ghost var was := state;
      var i, offset, disabled := producer.i, producer.offset, producer.disabled;
      if i < |c.files| {
        queue.Add(Job(c.files[i].fileHash, offset / BUFFER_DATA_SIZE, disabled));
        var next := offset + BUFFER_DATA_SIZE;
        producer := if next < c.files[i].filesize then Sending(i, next, disabled, false) else AtFile(i + 1);
      }
      state := PushJob(c, was);
    }

    // ---------- a worker ----------

    /** The worker loop's test. */
    method AskIfDone(w: nat)
      requires Matches() && w < |workers|
      modifies this`workers, this`state
      ensures Matches() && state == PollQueue(old(state), w)
    {
      var done := queue.IsDone();
      workers := workers[w := if done then Exited else Popping];
      state := PollQueue(state, w);
    }

    method TakeJob(w: nat)
      requires Matches() && w < |workers|
      modifies this`workers, this`taken, this`state, queue
      ensures Matches() && state == PopJob(old(state), w)
    {
      ghost var was := state;
      var popped, job := queue.Pop();
      if popped {
        workers := workers[w := Busy(taken, [job], StageOf(job.disabled))];
        taken := taken + 1;
      } else {
        workers := workers[w := Checking];
      }
      state := PopJob(was, w);
    }

    /** track_source: neither of its assertions fails. */
    method CountPart(w: nat, zeroCount: nat, nonprobativeCount: nat)
      requires Valid() && IsAt(state, w, Hashing)
      modifies this`workers, this`state, tracker
      ensures Matches() && state == TrackPart(old(state), w, zeroCount, nonprobativeCount)
    {
      ghost var was := state;
      var worker := workers[w];
      var f := Top(worker).fileHash;
      Tracked(c, was, w);
      var complete, source := tracker.TrackSource(f, zeroCount, nonprobativeCount);
      workers := workers[w := worker.(stage := if complete then Storing(Record(f, source)) else Recursing)];
      state := TrackPart(was, w, zeroCount, nonprobativeCount);
    }

    method StoreData(w: nat)
      requires Matches() && w < |workers| && workers[w].Busy? && workers[w].stage.Storing?
      modifies this`workers, this`stored, this`state
      ensures Matches() && state == StoreSource(old(state), w)
    {
      var worker := workers[w];
      stored := stored + [worker.stage.record];
      workers := workers[w := worker.(stage := Recursing)];
      state := StoreSource(state, w);
    }

    /** recurse: track the uncompressed source and run its job inline. */
    method RunInline(w: nat, f: ByteString, filesize: nat)
      requires Matches() && IsAt(state, w, Recursing)
      modifies this`workers, this`state, tracker
      ensures Matches() && state == RecurseInto(c, old(state), w, f, filesize)
    {
      ghost var was := state;
      var worker := workers[w];
      var added := tracker.AddSource(f, filesize, 1);
      workers := workers[w := worker.(stack := worker.stack + [Job(f, 0, !added)], stage := StageOf(!added))];
      state := RecurseInto(c, was, w, f, filesize);
    }

    method EndJob(w: nat)
      requires Matches() && IsAt(state, w, Recursing)
      modifies this`workers, this`state
      ensures Matches() && state == FinishJob(old(state), w)
    {
      var worker := workers[w];
      if |worker.stack| > 1 {
        workers := workers[w := worker.(stack := worker.stack[..|worker.stack| - 1])];
      } else {
        workers := workers[w := Checking];
      }
      state := FinishJob(state, w);
    }

    // ---------- any event ----------

    method ProducerStep(e: Event)
      requires Matches() && (e.Open? || e.Check? || e.ReadFails? || e.Push?)
      modifies this`producer, this`state, queue, tracker
      ensures Matches() && state == Next(c, old(state), e)
    {
      match e
      case Open(readable) =>
        if producer.AtFile? {
          OpenNext(readable);
        }
      case Check =>
        if producer.Sending? {
          LookForRoom();
        }
      case ReadFails =>
        if producer.Sending? && producer.offset > 0 && !producer.room {
          GiveUp();
        }
      case Push =>
        if producer.Sending? && producer.room {
          SendPart();
        }
      case _ =>
    }

    method QueueStep(e: Event)
      requires Matches() && (e.Poll? || e.Pop? || e.Store? || e.Finish?)
      modifies this`workers, this`taken, this`stored, this`state, queue
      ensures Matches() && state == Next(c, old(state), e)
    {
      var w := e.w;
      if w < |workers| {
        if e.Poll? && workers[w].Checking? {
          AskIfDone(w);
        } else if e.Pop? && workers[w].Popping? {
          TakeJob(w);
        } else if e.Store? && workers[w].Busy? && workers[w].stage.Storing? {
          StoreData(w);
        } else if e.Finish? && IsBusyAt(w, Recursing) {
          EndJob(w);
        }
      }
    }

    method TrackerStep(e: Event)
      requires Valid() && (e.Track? || e.Recurse?)
      modifies this`workers, this`state, tracker
      ensures Matches() && state == Next(c, old(state), e)
    {
      match e
      case Track(w, z, n) =>
        if IsBusyAt(w, Hashing) {
          CountPart(w, z, n);
        }
      case Recurse(w, f, size) =>
        if IsBusyAt(w, Recursing) && |workers[w].stack| <= MAX_DEPTH && size > 0 {
          RunInline(w, f, size);
        }
      case _ =>
    }

    predicate IsBusyAt(w: nat, stage: Stage)
      reads this
    {
      w < |workers| && workers[w].Busy? && workers[w].stage == stage && workers[w].stack != []
    }

    /** Whatever happens next, the objects follow the model. */
    method Step(e: Event)
      requires Valid()
      modifies this, queue, tracker
      ensures Valid() && state == Next(c, old(state), e)
    {
      IngestSafety.NextKeeps(c, state, e);
      if e.Track? || e.Recurse? {
        TrackerStep(e);
      } else if e.Poll? || e.Pop? || e.Store? || e.Finish? {
        QueueStep(e);
      } else {
        ProducerStep(e);
      }
    }
  }

  lemma Tracked(c: Config, s: State, w: nat)
    requires IngestSafety.Inv(c, s) && IsAt(s, w, Hashing)
    ensures Trackable(s.sources, Top(s.workers[w]).fileHash) && Top(s.workers[w]).fileHash in s.ledger
  {
    assert IngestSafety.Holds(IngestSafety.Hands, c, s) && IngestSafety.Holds(IngestSafety.Books, c, s);
    assert IngestSafety.HandOk(w, s.workers[w], s.ledger);
    IngestSafety.TrackKeepsBooks(c, s, w, 0, 0);
  }

  /** Any run, on the objects: afterwards the queue and the tracker hold what the modelled
      run holds, so its theorems are about them. */
  method Replay(c: Config, workers: nat, events: seq<Event>) returns (run: Run)
    ensures fresh(run) && run.Valid() && run.c == c && run.state == Reached(c, workers, events, |events|)
    ensures run.queue.jobs == Reached(c, workers, events, |events|).queue
    ensures run.tracker.sources == Reached(c, workers, events, |events|).sources
    ensures |run.queue.jobs| <= c.maxQueueSize
    ensures IngestSafety.AllExited(run.state) ==> run.queue.jobs == [] && run.queue.isDoneAdding
  {
    run := new Run(c, workers);
    for i := 0 to |events|
      invariant fresh(run) && fresh(run.queue) && fresh(run.tracker)
      invariant run.Valid() && run.c == c && run.state == Reached(c, workers, events, i)
    {
      run.Step(events[i]);
    }
    IngestSafety.QueueBounded(c, workers, events, |events|);
    if IngestSafety.AllExited(run.state) {
      IngestSafety.AllJobsProcessed(c, workers, events);
    }
  }
}
