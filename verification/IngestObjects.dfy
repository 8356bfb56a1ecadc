/** The objects that ingest threads share: the job queue and the tracker of source
    parts. Each method is one critical section of the code. */
module IngestObjects {
  import opened ByteStrings

  /** One buffer of one source. A disabled job stores no block hashes. */
  datatype Job = Job(fileHash: ByteString, part: nat, disabled: bool)

  class JobQueue {
    const maxQueueSize: nat
    var jobs: seq<Job>
    var isDoneAdding: bool

    constructor (maxQueueSize: nat)
      ensures this.maxQueueSize == maxQueueSize && jobs == [] && !isDoneAdding
    {
      this.maxQueueSize := maxQueueSize;
      jobs, isDoneAdding := [], false;
    }

    /** The first critical section of push: is there room right now? */
    method HasRoom() returns (room: bool)
      ensures room <==> |jobs| < maxQueueSize
    {
      room := |jobs| < maxQueueSize;
    }

    /** The second one, which does not look again. */
    method Add(job: Job)
      modifies this`jobs
      ensures jobs == old(jobs) + [job]
    {
      jobs := jobs + [job];
    }

    method Pop() returns (popped: bool, job: Job)
      modifies this`jobs
      ensures popped <==> old(jobs) != []
      ensures if popped then old(jobs) == [job] + jobs else jobs == old(jobs)
    {
      job := Job([], 0, true);
      popped := |jobs| > 0;
      if popped {
        job := jobs[0];
        jobs := jobs[1..];
      }
    }

    method DoneAdding()
      modifies this`isDoneAdding
      ensures isDoneAdding
    {
      isDoneAdding := true;
    }

    method IsDone() returns (done: bool)
      ensures done <==> isDoneAdding && jobs == []
    {
      done := isDoneAdding && |jobs| == 0;
    }
  }

  datatype Source = Source(filesize: nat, partsTotal: nat, partsDone: nat, zeroCount: nat, nonprobativeCount: nat)
  {
    function WithPart(zeroCount: nat, nonprobativeCount: nat): Source {
      Source(filesize, partsTotal, partsDone + 1, this.zeroCount + zeroCount,
             this.nonprobativeCount + nonprobativeCount)
    }
  }

  /** Both program-error assertions of track_source hold. */
  predicate Trackable(sources: map<ByteString, Source>, f: ByteString) {
    f in sources && sources[f].partsDone != sources[f].partsTotal
  }

  predicate IsNew(sources: map<ByteString, Source>, preexisting: set<ByteString>, f: ByteString) {
    f !in preexisting && f !in sources
  }

  class IngestTracker {
    const preexisting: set<ByteString>
    var sources: map<ByteString, Source>

    constructor (preexisting: set<ByteString>)
      ensures this.preexisting == preexisting && sources == map[]
    {
      this.preexisting := preexisting;
      sources := map[];
    }

    /** True when the source was not known and is now tracked. */
    method AddSource(f: ByteString, filesize: nat, partsTotal: nat) returns (added: bool)
      modifies this
      ensures added <==> IsNew(old(sources), preexisting, f)
      ensures sources == if added then old(sources)[f := Source(filesize, partsTotal, 0, 0, 0)] else old(sources)
    {
      if f in preexisting || f in sources {
        return false;
      }
      sources := sources[f := Source(filesize, partsTotal, 0, 0, 0)];
      return true;
    }

    /** Count one part; the record is erased and inserted anew. A complete source is
        handed back for the caller to store. */
    method TrackSource(f: ByteString, zeroCount: nat, nonprobativeCount: nat) returns (complete: bool, source: Source)
      requires Trackable(sources, f)
      modifies this
      ensures source == old(sources)[f].WithPart(zeroCount, nonprobativeCount)
      ensures sources == old(sources)[f := source]
      ensures complete <==> source.partsDone == source.partsTotal
    {
      source := sources[f];
      var partsTotal := source.partsTotal;
      sources := sources - {f};
      source := source.(zeroCount := source.zeroCount + zeroCount);
      source := source.(nonprobativeCount := source.nonprobativeCount + nonprobativeCount);
      source := source.(partsDone := source.partsDone + 1);
      sources := sources[f := source];
      complete := source.partsDone == partsTotal;
    }
  }
}
