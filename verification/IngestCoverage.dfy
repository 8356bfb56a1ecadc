/** What threaded ingest leaves out: when all workers have exited, every file and every
    recursed buffer is stored, but for the reasons that the code gives. */
module IngestCoverage {
  import opened ByteStrings
  import opened IngestObjects
  import opened IngestPipeline
  import IngestSafety

  /** The k-th event finds that file i cannot be opened. */
  ghost predicate FailsToOpen(c: Config, workers: nat, events: seq<Event>, k: nat, i: nat) {
    k < |events| && events[k] == Open(false) && Reached(c, workers, events, k).producer == AtFile(i)
  }

  /** The k-th event finds that a later part of the file being sent cannot be read. */
  ghost predicate FailsToRead(c: Config, workers: nat, events: seq<Event>, k: nat, f: ByteString) {
    k < |events| && events[k] == ReadFails && IsSending(c, Reached(c, workers, events, k).producer, f)
  }

  ghost predicate IsSending(c: Config, producer: Producer, f: ByteString) {
    && producer.Sending? && producer.offset > 0 && !producer.room
    && producer.i < |c.files| && c.files[producer.i].fileHash == f
  }

  ghost predicate NotOpened(c: Config, workers: nat, events: seq<Event>, n: nat, i: nat) {
    exists k :: 0 <= k < n && FailsToOpen(c, workers, events, k, i)
  }

  ghost predicate NotRead(c: Config, workers: nat, events: seq<Event>, n: nat, f: ByteString) {
    exists k :: 0 <= k < n && FailsToRead(c, workers, events, k, f)
  }

  /** The files before this one have been opened or passed over. */
  ghost function Position(c: Config, producer: Producer): nat {
    match producer
    case AtFile(i) => i
    case Sending(i, offset, disabled, room) => i + 1
    case Finished => |c.files|
  }

  ghost predicate Settled(c: Config, sources: map<ByteString, Source>, i: nat, notOpened: bool)
    requires i < |c.files|
  {
    c.files[i].filesize == 0 || notOpened || c.files[i].fileHash in c.preexisting || c.files[i].fileHash in sources
  }

  /** No step forgets a source. */
  lemma SourcesStay(c: Config, s: State, e: Event)
    ensures s.sources.Keys <= Next(c, s, e).sources.Keys
  {
  }

  lemma OpenSettles(c: Config, s: State, e: Event, i: nat)
    requires i < |c.files| && Position(c, s.producer) <= i < Position(c, Next(c, s, e).producer)
    ensures s.producer == AtFile(i) && Settled(c, Next(c, s, e).sources, i, e == Open(false))
  {
  }

  lemma {:induction false} FilesSettled(c: Config, workers: nat, events: seq<Event>, n: nat, i: nat)
    requires n <= |events| && i < |c.files| && i < Position(c, Reached(c, workers, events, n).producer)
    ensures Settled(c, Reached(c, workers, events, n).sources, i, NotOpened(c, workers, events, n, i))
  {
    if n == 0 {
    } else {
      var s, e := Reached(c, workers, events, n - 1), events[n - 1];
      if i < Position(c, s.producer) {
        FilesSettled(c, workers, events, n - 1, i);
        SourcesStay(c, s, e);
      } else {
        OpenSettles(c, s, e, i);
        assert e == Open(false) ==> FailsToOpen(c, workers, events, n - 1, i);
      }
    }
  }

  lemma AbortedNow(c: Config, s: State, e: Event, f: ByteString)
    requires f in Next(c, s, e).aborted && f !in s.aborted
    ensures e == ReadFails && IsSending(c, s.producer, f)
  {
  }

  lemma {:induction false} AbortedIsNotRead(c: Config, workers: nat, events: seq<Event>, n: nat, f: ByteString)
    requires n <= |events| && f in Reached(c, workers, events, n).aborted
    ensures NotRead(c, workers, events, n, f)
  {
    if n == 0 {
    } else {
      var s, e := Reached(c, workers, events, n - 1), events[n - 1];
      if f in s.aborted {
        AbortedIsNotRead(c, workers, events, n - 1, f);
      } else {
        AbortedNow(c, s, e, f);
        assert FailsToRead(c, workers, events, n - 1, f);
      }
    }
  }

  lemma KnownIsStored(c: Config, workers: nat, events: seq<Event>, f: ByteString)
    requires IngestSafety.AllExited(Reached(c, workers, events, |events|))
    requires f in Reached(c, workers, events, |events|).sources
    ensures IngestSafety.InLog(Reached(c, workers, events, |events|).stored, f)
              || NotRead(c, workers, events, |events|, f)
  {
    IngestSafety.StoredExactlyOnce(c, workers, events, f);
    if f in Reached(c, workers, events, |events|).aborted {
      AbortedIsNotRead(c, workers, events, |events|, f);
    }
  }

  /** When all workers have exited, a file is stored, unless it is empty, could not be
      opened, has a later part that could not be read, or its source was there before. */
  lemma EveryFileStored(c: Config, workers: nat, events: seq<Event>, i: nat)
    requires i < |c.files| && IngestSafety.AllExited(Reached(c, workers, events, |events|))
    ensures var f := c.files[i].fileHash;
            || (exists r :: r in Reached(c, workers, events, |events|).stored && r.fileHash == f)
            || c.files[i].filesize == 0 || NotOpened(c, workers, events, |events|, i)
            || NotRead(c, workers, events, |events|, f) || f in c.preexisting
  {
    var s := Reached(c, workers, events, |events|);
    IngestSafety.ReachedOk(c, workers, events, |events|);
    IngestSafety.AllJobsProcessed(c, workers, events);
    assert IngestSafety.Holds(IngestSafety.Queue, c, s);
    FilesSettled(c, workers, events, |events|, i);
    if c.files[i].fileHash in s.sources {
      KnownIsStored(c, workers, events, c.files[i].fileHash);
    }
  }

  /** No source that was there before is stored again. */
  lemma PreexistingIsNotStored(c: Config, workers: nat, events: seq<Event>, n: nat, r: Record)
    requires n <= |events| && r in Reached(c, workers, events, n).stored
    ensures r.fileHash !in c.preexisting
  {
    var s := Reached(c, workers, events, n);
    IngestSafety.ReachedOk(c, workers, events, n);
    assert IngestSafety.Holds(IngestSafety.Database, c, s) && IngestSafety.Holds(IngestSafety.Books, c, s);
    var i :| 0 <= i < |s.stored| && s.stored[i] == r;
    assert IngestSafety.RecordOk(s.stored[i], s.sources);
  }

  lemma {:induction false} SourcesLast(c: Config, workers: nat, events: seq<Event>, n: nat, m: nat, f: ByteString)
    requires n <= m <= |events| && f in Reached(c, workers, events, n).sources
    ensures f in Reached(c, workers, events, m).sources
    decreases m
  {
    if n == m {
    } else {
      SourcesLast(c, workers, events, n, m - 1, f);
      SourcesStay(c, Reached(c, workers, events, m - 1), events[m - 1]);
    }
  }

  /** A worker at that depth recurses: the source becomes known and its job is on top. */
  lemma RecursesTo7(c: Config, s: State, w: nat, f: ByteString, filesize: nat)
    requires IsAt(s, w, Recursing) && filesize > 0
    ensures var stack := Next(c, s, Recurse(w, f, filesize)).workers[w].stack;
            if |s.workers[w].stack| <= 7 then
              && stack == s.workers[w].stack + [Job(f, 0, f in s.sources || f in c.preexisting)]
              && (f in Next(c, s, Recurse(w, f, filesize)).sources || f in c.preexisting)
            else stack == s.workers[w].stack
  {
  }

  /** A record of f is stored in the end, or a reason why not. */
  ghost predicate StoredUnless(c: Config, workers: nat, events: seq<Event>, f: ByteString) {
    || (exists r :: r in Reached(c, workers, events, |events|).stored && r.fileHash == f)
    || NotRead(c, workers, events, |events|, f) || f in c.preexisting
  }

  ghost predicate KnownAfter(c: Config, workers: nat, events: seq<Event>, n: nat, f: ByteString) {
    n <= |events| && (f in Reached(c, workers, events, n).sources || f in c.preexisting)
  }

  /** At some time the tracker knows f, or f was there before. */
  ghost predicate BecomesKnown(c: Config, workers: nat, events: seq<Event>, f: ByteString) {
    exists n :: 0 <= n && KnownAfter(c, workers, events, n, f)
  }

  lemma KnownOnceIsStored(c: Config, workers: nat, events: seq<Event>, f: ByteString)
    requires BecomesKnown(c, workers, events, f)
    requires IngestSafety.AllExited(Reached(c, workers, events, |events|))
    ensures StoredUnless(c, workers, events, f)
  {
    var n :| 0 <= n && KnownAfter(c, workers, events, n, f);
    if f !in c.preexisting {
      SourcesLast(c, workers, events, n, |events|, f);
      KnownIsStored(c, workers, events, f);
    }
  }

  lemma RecursedIsKnown(c: Config, workers: nat, events: seq<Event>, k: nat, w: nat, f: ByteString, filesize: nat)
    requires k < |events| && events[k] == Recurse(w, f, filesize) && filesize > 0
    requires IsAt(Reached(c, workers, events, k), w, Recursing)
    requires |Reached(c, workers, events, k).workers[w].stack| <= 7
    ensures BecomesKnown(c, workers, events, f)
  {
    var s := Reached(c, workers, events, k);
    RecursesTo7(c, s, w, f, filesize);
    assert Reached(c, workers, events, k + 1) == Next(c, s, events[k]);
    assert KnownAfter(c, workers, events, k + 1, f);
  }

  /** A buffer that a worker recurses into is stored in the end, for the same reasons. */
  lemma EveryRecursionStored(c: Config, workers: nat, events: seq<Event>, k: nat, w: nat, f: ByteString, filesize: nat)
    requires k < |events| && events[k] == Recurse(w, f, filesize) && filesize > 0
    requires IsAt(Reached(c, workers, events, k), w, Recursing)
    requires |Reached(c, workers, events, k).workers[w].stack| <= 7
    requires IngestSafety.AllExited(Reached(c, workers, events, |events|))
    ensures StoredUnless(c, workers, events, f)
  {
    RecursedIsKnown(c, workers, events, k, w, f, filesize);
    KnownOnceIsStored(c, workers, events, f);
  }
}
