/** The insert_hash calls of threaded ingest: workers insert the blocks of their buffers one
    at a time, in any interleaving, and for a stored source the calls are those of one pass
    over the whole source, each once. */
module IngestInserts {
  import opened ByteStrings
  import opened HashDataModel
  import opened HashDataRecords
  import opened IngestBuffers
  import opened IngestCounts
  import opened IngestObjects
  import opened IngestPipeline
  import opened IngestTallies
  import HashDataRuns
  import IngestSafety

  /** An insert_hash call for a source: the i-th block that is due for a part of it. */
  datatype Call = Call(fileHash: ByteString, part: nat, i: nat, place: Placed)

  /** The pipeline, how many of its buffer's blocks each worker has inserted, and the calls
      of all workers in the order in which they were made. */
  datatype Work = Work(s: State, made: seq<nat>, log: seq<Call>)

  datatype Act = Insert(w: nat) | Do(e: Event)

  /** The blocks that the worker has to insert before it reports its part. */
  function Due(u: Setup, worker: Worker): seq<Placed>
    requires u.step > 0
  {
    if worker.Busy? && worker.stage == Hashing && worker.stack != [] then
      u.TallyFor(Top(worker).fileHash, |worker.stack| == 1, Top(worker).part).inserted
    else []
  }

  function NextCall(u: Setup, x: Work, w: nat): Call
    requires u.step > 0 && IsAt(x.s, w, Hashing) && w < |x.made| && x.made[w] < |Due(u, x.s.workers[w])|
  {
    var job := Top(x.s.workers[w]);
    Call(job.fileHash, job.part, x.made[w], Due(u, x.s.workers[w])[x.made[w]])
  }

  /** A worker inserts block after block, and reports the part when none is left. */
  function Step(u: Setup, c: Config, x: Work, a: Act): Work
    requires u.step > 0
  {
    match a
    case Insert(w) =>
      if IsAt(x.s, w, Hashing) && w < |x.made| && x.made[w] < |Due(u, x.s.workers[w])| then
        x.(made := x.made[w := x.made[w] + 1], log := x.log + [NextCall(u, x, w)])
      else x
    case Do(e) =>
      if !(e.Track? && IsAt(x.s, e.w, Hashing) && e.w < |x.made|) then x.(s := Next(c, x.s, e))
      else if x.made[e.w] < |Due(u, x.s.workers[e.w])| then x
      else x.(s := Next(c, x.s, e), made := x.made[e.w := 0])
  }

  function Start(workers: nat): Work {
    Work(Init(workers), seq(workers, _ => 0), [])
  }

  /** One act of a run, whose event reports the files as they are. */
  ghost predicate ActAt(u: Setup, c: Config, acts: seq<Act>, works: seq<Work>, k: nat)
    requires u.step > 0 && k < |acts| && |works| == |acts| + 1
  {
    works[k + 1] == Step(u, c, works[k], acts[k]) && (acts[k].Do? ==> Honest(u, works[k].s, acts[k].e))
  }

  /** A run of any number of workers, act after act. */
  ghost predicate IsRun(u: Setup, c: Config, workers: nat, acts: seq<Act>, works: seq<Work>)
    requires u.step > 0
  {
    && (forall file :: file in c.files ==> file.filesize == |u.content(file.fileHash)|)
    && |works| == |acts| + 1 && works[0] == Start(workers)
    && (forall k :: 0 <= k < |acts| ==> ActAt(u, c, acts, works, k))
  }

  // ---------- what every step keeps ----------

  /** Call x is one that is due for its part. */
  ghost predicate IsDue(u: Setup, ofFile: bool, x: Call)
    requires u.step > 0
  {
    var due := u.TallyFor(x.fileHash, ofFile, x.part).inserted;
    x.i < |due| && x.place == due[x.i]
  }

  ghost predicate Hashed(worker: Worker, x: Call) {
    IngestSafety.Hashes(worker, Job(x.fileHash, x.part, false))
  }

  /** Some worker is at the part of this call, and beyond it. */
  ghost predicate BeyondIt(x: Work, call: Call)
    requires |x.made| == |x.s.workers|
  {
    exists w :: 0 <= w < |x.made| && Hashed(x.s.workers[w], call) && call.i < x.made[w]
  }

  /** The call is due, and its part is reported or with a worker that is beyond it. */
  ghost predicate Made(u: Setup, x: Work, call: Call)
    requires u.step > 0 && |x.made| == |x.s.workers|
  {
    && call.fileHash in x.s.ledger && IsDue(u, x.s.ledger[call.fileHash].origin.FromFile?, call)
    && (call.part in x.s.ledger[call.fileHash].zeros || BeyondIt(x, call))
  }

  datatype Aspect = Bounded | Distinct | OnlyDue | AllDue

  ghost predicate Keeps(aspect: Aspect, u: Setup, x: Work)
    requires u.step > 0
  {
    && |x.made| == |x.s.workers|
    && match aspect
       case Bounded => forall w :: 0 <= w < |x.made| ==> x.made[w] <= |Due(u, x.s.workers[w])|
       case Distinct => forall j, k :: 0 <= j < k < |x.log| ==> x.log[j] != x.log[k]
       case OnlyDue => forall call :: call in x.log ==> Made(u, x, call)
       case AllDue => forall call :: Made(u, x, call) ==> call in x.log
  }

  ghost predicate Ok(u: Setup, x: Work)
    requires u.step > 0
  {
    forall aspect :: Keeps(aspect, u, x)
  }

  lemma SameCalls(u: Setup, x: Work, y: Work)
    requires u.step > 0 && Ok(u, x) && y.log == x.log && Keeps(Bounded, u, y)
    requires |x.made| == |x.s.workers|
    requires forall call :: Made(u, y, call) <==> Made(u, x, call)
    ensures Ok(u, y)
  {
    assert Keeps(Distinct, u, x) && Keeps(OnlyDue, u, x) && Keeps(AllDue, u, x);
    forall aspect
      ensures Keeps(aspect, u, y)
    {
      match aspect
      case Bounded =>
      case Distinct =>
      case OnlyDue =>
      case AllDue =>
    }
  }

  // ---------- inserting a block ----------

  /** A worker at a part has a source of the origin that its buffer suggests. */
  lemma InHand(c: Config, s: State, w: nat)
    requires IngestSafety.Inv(c, s) && IsAt(s, w, Hashing)
    ensures var job := Top(s.workers[w]);
            && job == Job(job.fileHash, job.part, false) && job.fileHash in s.ledger && job.fileHash in s.sources
            && job.part !in s.ledger[job.fileHash].zeros
            && (s.ledger[job.fileHash].origin.FromFile? <==> |s.workers[w].stack| == 1)
  {
    assert IngestSafety.Holds(IngestSafety.Hands, c, s) && IngestSafety.Holds(IngestSafety.Books, c, s);
    assert IngestSafety.HandOk(w, s.workers[w], s.ledger);
  }

  lemma OneAtIt(c: Config, s: State, w: nat, v: nat, call: Call)
    requires IngestSafety.Inv(c, s) && w < |s.workers| && v < |s.workers|
    requires Hashed(s.workers[w], call) && Hashed(s.workers[v], call)
    ensures v == w
  {
    assert IngestSafety.Holds(IngestSafety.Hands, c, s) && IngestSafety.Holds(IngestSafety.Serials, c, s);
    assert IngestSafety.Holds(IngestSafety.Jobs, c, s);
    if v != w {
      IngestSafety.PartHasOneOwner(s, w, v);
    }
  }

  lemma NextIsNew(u: Setup, c: Config, x: Work, w: nat)
    requires u.step > 0 && |x.made| == |x.s.workers| && IngestSafety.Inv(c, x.s)
    requires IsAt(x.s, w, Hashing) && x.made[w] < |Due(u, x.s.workers[w])|
    ensures !Made(u, x, NextCall(u, x, w))
    ensures Hashed(x.s.workers[w], NextCall(u, x, w))
  {
    var call := NextCall(u, x, w);
    InHand(c, x.s, w);
    if BeyondIt(x, call) {
      var v :| 0 <= v < |x.made| && Hashed(x.s.workers[v], call) && call.i < x.made[v];
      OneAtIt(c, x.s, w, v, call);
    }
  }

  lemma OneMoreMade(u: Setup, c: Config, x: Work, w: nat, call: Call)
    requires u.step > 0 && |x.made| == |x.s.workers| && IngestSafety.Inv(c, x.s)
    requires IsAt(x.s, w, Hashing) && x.made[w] < |Due(u, x.s.workers[w])|
    ensures var y := Step(u, c, x, Insert(w));
            Made(u, y, call) <==> Made(u, x, call) || call == NextCall(u, x, w)
  {
    var y := Step(u, c, x, Insert(w));
    InHand(c, x.s, w);
    NextIsNew(u, c, x, w);
    if BeyondIt(x, call) {
      var v :| 0 <= v < |x.made| && Hashed(x.s.workers[v], call) && call.i < x.made[v];
      assert Hashed(y.s.workers[v], call) && call.i < y.made[v];
    }
    if BeyondIt(y, call) {
      var v :| 0 <= v < |y.made| && Hashed(y.s.workers[v], call) && call.i < y.made[v];
      assert v != w || call.i < x.made[w] ==> BeyondIt(x, call);
    }
    if call == NextCall(u, x, w) {
      assert Hashed(y.s.workers[w], call) && call.i < y.made[w];
    }
  }

  lemma InsertOk(u: Setup, c: Config, x: Work, w: nat)
    requires u.step > 0 && Ok(u, x) && IngestSafety.Inv(c, x.s)
    ensures Ok(u, Step(u, c, x, Insert(w)))
  {
    assert Keeps(Bounded, u, x);
    if IsAt(x.s, w, Hashing) && x.made[w] < |Due(u, x.s.workers[w])| {
      var y := Step(u, c, x, Insert(w));
      NextIsNew(u, c, x, w);
      forall call {
        OneMoreMade(u, c, x, w, call);
      }
      LogGrows(u, x, y, NextCall(u, x, w));
    }
  }

  lemma LogGrows(u: Setup, x: Work, y: Work, more: Call)
    requires u.step > 0 && Ok(u, x) && y.log == x.log + [more] && Keeps(Bounded, u, y)
    requires |x.made| == |x.s.workers| && !Made(u, x, more)
    requires forall call :: Made(u, y, call) <==> Made(u, x, call) || call == more
    ensures Ok(u, y)
  {
    assert Keeps(Distinct, u, x) && Keeps(OnlyDue, u, x) && Keeps(AllDue, u, x);
    forall aspect
      ensures Keeps(aspect, u, y)
    {
      match aspect
      case Bounded =>
      case Distinct =>
      case OnlyDue =>
      case AllDue =>
    }
  }

  // ---------- reporting a part ----------

  /** A worker that is not at a part. */
  predicate AtNoPart(worker: Worker) {
    !(worker.Busy? && worker.stage == Hashing && worker.stack != [])
  }

  ghost predicate Moves(s: State, s': State, e: Event)
    requires e.Track? && IsAt(s, e.w, Hashing)
  {
    var job := Top(s.workers[e.w]);
    && job.fileHash in s.ledger
    && s'.ledger == s.ledger[job.fileHash := Reported(s.ledger[job.fileHash], job.part, e.zeroCount,
                               e.nonprobativeCount)]
    && |s'.workers| == |s.workers| && AtNoPart(s'.workers[e.w])
    && (forall v :: 0 <= v < |s.workers| && v != e.w ==> s'.workers[v] == s.workers[v])
  }

  lemma TrackMoves(s: State, e: Event)
    requires e.Track? && IsAt(s, e.w, Hashing)
    requires Trackable(s.sources, Top(s.workers[e.w]).fileHash) && Top(s.workers[e.w]).fileHash in s.ledger
    ensures Moves(s, TrackPart(s, e.w, e.zeroCount, e.nonprobativeCount), e)
  {
  }

  lemma ReportMoves(c: Config, s: State, e: Event)
    requires IngestSafety.Inv(c, s) && e.Track? && IsAt(s, e.w, Hashing)
    ensures Moves(s, Next(c, s, e), e)
  {
    InHand(c, s, e.w);
    assert IngestSafety.Holds(IngestSafety.Hands, c, s) && IngestSafety.Holds(IngestSafety.Books, c, s);
    IngestSafety.TrackKeepsBooks(c, s, e.w, e.zeroCount, e.nonprobativeCount);
    TrackMoves(s, e);
  }

  lemma ReportMakesNone(u: Setup, c: Config, x: Work, e: Event, call: Call)
    requires u.step > 0 && |x.made| == |x.s.workers| && IngestSafety.Inv(c, x.s)
    requires e.Track? && IsAt(x.s, e.w, Hashing) && x.made[e.w] == |Due(u, x.s.workers[e.w])|
    ensures var y := Step(u, c, x, Do(e));
            |y.made| == |y.s.workers| && (Made(u, y, call) ==> Made(u, x, call))
  {
    var y, job := Step(u, c, x, Do(e)), Top(x.s.workers[e.w]);
    InHand(c, x.s, e.w);
    ReportMoves(c, x.s, e);
    if BeyondIt(y, call) {
      var v :| 0 <= v < |y.made| && Hashed(y.s.workers[v], call) && call.i < y.made[v];
      assert Hashed(x.s.workers[v], call) && call.i < x.made[v];
    }
    if call.fileHash == job.fileHash && call.part == job.part && call.i < x.made[e.w] {
      assert Hashed(x.s.workers[e.w], call) && call.i < x.made[e.w];
    }
  }

  /** The calls made for the part stay made when it is reported. */
  lemma ReportKeepsMade(u: Setup, c: Config, x: Work, e: Event, call: Call)
    requires u.step > 0 && |x.made| == |x.s.workers| && Keeps(Bounded, u, x) && IngestSafety.Inv(c, x.s)
    requires e.Track? && IsAt(x.s, e.w, Hashing) && x.made[e.w] == |Due(u, x.s.workers[e.w])|
    ensures var y := Step(u, c, x, Do(e));
            |y.made| == |y.s.workers| && (Made(u, x, call) ==> Made(u, y, call))
  {
    var y := Step(u, c, x, Do(e));
    InHand(c, x.s, e.w);
    ReportMoves(c, x.s, e);
    if BeyondIt(x, call) {
      var v :| 0 <= v < |x.made| && Hashed(x.s.workers[v], call) && call.i < x.made[v];
      assert v != e.w ==> Hashed(y.s.workers[v], call) && call.i < y.made[v];
    }
  }

  lemma ReportOk(u: Setup, c: Config, x: Work, e: Event)
    requires u.step > 0 && Ok(u, x) && IngestSafety.Inv(c, x.s) && e.Track? && IsAt(x.s, e.w, Hashing)
    ensures Ok(u, Step(u, c, x, Do(e)))
  {
    assert Keeps(Bounded, u, x);
    if x.made[e.w] == |Due(u, x.s.workers[e.w])| {
      var y := Step(u, c, x, Do(e));
      ReportMoves(c, x.s, e);
      forall call
        ensures Made(u, y, call) <==> Made(u, x, call)
      {
        ReportKeepsMade(u, c, x, e, call);
        ReportMakesNone(u, c, x, e, call);
      }
      SameCalls(u, x, y);
    }
  }

  // ---------- the other events ----------

  /** The books of old sources stay, new ones have no part reported, and a worker at a part
      stays there. */
  ghost predicate Quiet(s: State, s': State) {
    && |s'.workers| == |s.workers|
    && (forall f :: f in s.ledger ==>
          f in s'.ledger && s'.ledger[f].origin == s.ledger[f].origin && s'.ledger[f].zeros == s.ledger[f].zeros)
    && (forall f :: f in s'.ledger && f !in s.ledger ==> s'.ledger[f].zeros == map[])
    && (forall w :: 0 <= w < |s.workers| ==> s'.workers[w] == s.workers[w] || AtNoPart(s.workers[w]))
  }

  lemma OthersAreQuiet(c: Config, s: State, e: Event)
    requires IngestSafety.Inv(c, s) && !(e.Track? && IsAt(s, e.w, Hashing))
    ensures Quiet(s, Next(c, s, e))
  {
    assert IngestSafety.Holds(IngestSafety.Books, c, s);
    match e
    case Open(readable) =>
      if s.producer.AtFile? {
        OpenIsQuiet(c, s, readable);
      }
    case Push =>
      if s.producer.Sending? && s.producer.room {
        PushIsQuiet(c, s);
      }
    case Recurse(w, f, size) =>
      if IsAt(s, w, Recursing) && |s.workers[w].stack| <= MAX_DEPTH && size > 0 {
        RecurseIsQuiet(c, s, w, f, size);
      }
    case _ => MoveIsQuiet(c, s, e);
  }

  lemma OpenIsQuiet(c: Config, s: State, readable: bool)
    requires s.producer.AtFile? && s.sources.Keys == s.ledger.Keys
    ensures Quiet(s, OpenFile(c, s, readable))
  {
  }

  lemma PushIsQuiet(c: Config, s: State)
    requires s.producer.Sending?
    ensures Quiet(s, PushJob(c, s))
  {
  }

  lemma RecurseIsQuiet(c: Config, s: State, w: nat, f: ByteString, filesize: nat)
    requires IsAt(s, w, Recursing) && s.sources.Keys == s.ledger.Keys
    ensures Quiet(s, RecurseInto(c, s, w, f, filesize))
  {
  }

  lemma MoveIsQuiet(c: Config, s: State, e: Event)
    requires !e.Open? && !e.Push? && !e.Recurse? && !(e.Track? && IsAt(s, e.w, Hashing))
    ensures Quiet(s, Next(c, s, e))
  {
    assert Next(c, s, e).ledger == s.ledger;
  }

  lemma QuietKeepsMade(u: Setup, x: Work, y: Work, call: Call)
    requires u.step > 0 && |x.made| == |x.s.workers| && Keeps(Bounded, u, x) && Quiet(x.s, y.s) && y.made == x.made
    requires Made(u, x, call) || call.fileHash in x.s.ledger
    ensures Made(u, y, call) <==> Made(u, x, call)
  {
    if BeyondIt(y, call) {
      var v :| 0 <= v < |y.made| && Hashed(y.s.workers[v], call) && call.i < y.made[v];
      assert Hashed(x.s.workers[v], call) && call.i < x.made[v];
    }
    if BeyondIt(x, call) {
      var v :| 0 <= v < |x.made| && Hashed(x.s.workers[v], call) && call.i < x.made[v];
      assert Hashed(y.s.workers[v], call) && call.i < y.made[v];
    }
  }

  /** No call was made for a source that is new. */
  lemma NoneForNew(u: Setup, c: Config, x: Work, y: Work, call: Call)
    requires u.step > 0 && |x.made| == |x.s.workers| && Keeps(Bounded, u, x) && Quiet(x.s, y.s) && y.made == x.made
    requires IngestSafety.Inv(c, x.s) && call.fileHash !in x.s.ledger
    ensures !Made(u, y, call)
  {
    if BeyondIt(y, call) {
      var v :| 0 <= v < |y.made| && Hashed(y.s.workers[v], call) && call.i < y.made[v];
      assert Hashed(x.s.workers[v], call);
      InHand(c, x.s, v);
    }
  }

  lemma QuietOk(u: Setup, c: Config, x: Work, e: Event)
    requires u.step > 0 && Ok(u, x) && IngestSafety.Inv(c, x.s) && !(e.Track? && IsAt(x.s, e.w, Hashing))
    ensures Ok(u, Step(u, c, x, Do(e)))
  {
    var y := Step(u, c, x, Do(e));
    assert Keeps(Bounded, u, x);
    OthersAreQuiet(c, x.s, e);
    forall call
      ensures Made(u, y, call) <==> Made(u, x, call)
    {
      if call.fileHash in x.s.ledger {
        QuietKeepsMade(u, x, y, call);
      } else {
        NoneForNew(u, c, x, y, call);
      }
    }
    SameCalls(u, x, y);
  }

  lemma StepOk(u: Setup, c: Config, x: Work, a: Act)
    requires u.step > 0 && Ok(u, x) && IngestSafety.Inv(c, x.s)
    ensures Ok(u, Step(u, c, x, a))
  {
    match a
    case Insert(w) => InsertOk(u, c, x, w);
    case Do(e) =>
      if e.Track? && IsAt(x.s, e.w, Hashing) {
        ReportOk(u, c, x, e);
      } else {
        QuietOk(u, c, x, e);
      }
  }

  // ---------- every run ----------

  lemma StepSound(u: Setup, c: Config, x: Work, a: Act)
    requires u.step > 0 && IngestSafety.Inv(c, x.s) && AllMeasured(u, x.s) && (a.Do? ==> Honest(u, x.s, a.e))
    requires forall file :: file in c.files ==> file.filesize == |u.content(file.fileHash)|
    ensures IngestSafety.Inv(c, Step(u, c, x, a).s) && AllMeasured(u, Step(u, c, x, a).s)
  {
    if a.Do? {
      IngestSafety.NextKeeps(c, x.s, a.e);
      NextMeasured(u, c, x.s, a.e);
    }
  }

  datatype Fact = Safe | Counted | Listed

  /** What holds of every run: the facts open one at a time. */
  ghost predicate Sound(u: Setup, c: Config, x: Work)
    requires u.step > 0
  {
    forall fact :: Has(fact, u, c, x)
  }

  ghost predicate Has(fact: Fact, u: Setup, c: Config, x: Work)
    requires u.step > 0
  {
    match fact
    case Safe => IngestSafety.Inv(c, x.s)
    case Counted => AllMeasured(u, x.s)
    case Listed => Ok(u, x)
  }

  lemma ActKeeps(u: Setup, c: Config, workers: nat, acts: seq<Act>, works: seq<Work>, k: nat)
    requires u.step > 0 && IsRun(u, c, workers, acts, works) && k < |acts| && Sound(u, c, works[k])
    ensures Sound(u, c, works[k + 1])
  {
    assert ActAt(u, c, acts, works, k);
    assert Has(Safe, u, c, works[k]) && Has(Counted, u, c, works[k]) && Has(Listed, u, c, works[k]);
    StepSound(u, c, works[k], acts[k]);
    StepOk(u, c, works[k], acts[k]);
  }

  lemma StartSound(u: Setup, c: Config, workers: nat)
    requires u.step > 0
    ensures Sound(u, c, Start(workers))
  {
    IngestSafety.InitOk(c, workers);
  }

  lemma {:induction false} RunIsSound(u: Setup, c: Config, workers: nat, acts: seq<Act>, works: seq<Work>, n: nat)
    requires u.step > 0 && IsRun(u, c, workers, acts, works) && n <= |acts|
    ensures Sound(u, c, works[n])
  {
    if n == 0 {
      StartSound(u, c, workers);
    } else {
      RunIsSound(u, c, workers, acts, works, n - 1);
      ActKeeps(u, c, workers, acts, works, n - 1);
    }
  }

  // ---------- the calls of one source ----------

  /** The calls made for source f among the first n of all calls. */
  ghost function Of(log: seq<Call>, n: nat, f: ByteString): seq<Call>
    requires n <= |log|
  {
    if n == 0 then [] else Of(log, n - 1, f) + (if log[n - 1].fileHash == f then [log[n - 1]] else [])
  }

  /** The calls that are due for one part. */
  ghost function DueFor(u: Setup, f: ByteString, ofFile: bool, p: nat): seq<Call>
    requires u.step > 0
  {
    CallsFor(f, p, u.TallyFor(f, ofFile, p).inserted)
  }

  ghost function CallsFor(f: ByteString, p: nat, due: seq<Placed>): seq<Call> {
    seq(|due|, i requires 0 <= i < |due| => Call(f, p, i, due[i]))
  }

  ghost function DueForFirst(u: Setup, f: ByteString, ofFile: bool, n: nat): seq<Call>
    requires u.step > 0
  {
    if n == 0 then [] else DueForFirst(u, f, ofFile, n - 1) + DueFor(u, f, ofFile, n - 1)
  }

  ghost predicate NoneTwice<T>(s: seq<T>) {
    forall j, k :: 0 <= j < k < |s| ==> s[j] != s[k]
  }

  lemma {:induction false} MembersOf(log: seq<Call>, n: nat, f: ByteString, call: Call)
    requires n <= |log|
    ensures call in Of(log, n, f) <==> call.fileHash == f && call in log[..n]
  {
    if n == 0 {
    } else {
      MembersOf(log, n - 1, f, call);
      assert log[..n] == log[..n - 1] + [log[n - 1]];
    }
  }

  lemma {:induction false} OnceOf(log: seq<Call>, n: nat, f: ByteString)
    requires n <= |log| && NoneTwice(log)
    ensures NoneTwice(Of(log, n, f))
  {
    if n == 0 {
    } else {
      OnceOf(log, n - 1, f);
      MembersOf(log, n - 1, f, log[n - 1]);
      assert log[n - 1] !in log[..n - 1];
    }
  }

  lemma MembersDue(u: Setup, f: ByteString, ofFile: bool, p: nat, call: Call)
    requires u.step > 0
    ensures call in DueFor(u, f, ofFile, p) <==> call.fileHash == f && call.part == p && IsDue(u, ofFile, call)
  {
    var calls := DueFor(u, f, ofFile, p);
    if call.fileHash == f && call.part == p && IsDue(u, ofFile, call) {
      assert calls[call.i] == call;
    }
  }

  lemma {:induction false} MembersDueForFirst(u: Setup, f: ByteString, ofFile: bool, n: nat, call: Call)
    requires u.step > 0
    ensures call in DueForFirst(u, f, ofFile, n) <==> call.fileHash == f && call.part < n && IsDue(u, ofFile, call)
  {
    if n == 0 {
    } else {
      MembersDueForFirst(u, f, ofFile, n - 1, call);
      MembersDue(u, f, ofFile, n - 1, call);
    }
  }

  lemma {:induction false} OnceDue(u: Setup, f: ByteString, ofFile: bool, n: nat)
    requires u.step > 0
    ensures NoneTwice(DueForFirst(u, f, ofFile, n))
  {
    if n == 0 {
    } else {
      var before, calls := DueForFirst(u, f, ofFile, n - 1), DueFor(u, f, ofFile, n - 1);
      OnceDue(u, f, ofFile, n - 1);
      forall call | call in before
        ensures call !in calls
      {
        MembersDueForFirst(u, f, ofFile, n - 1, call);
        MembersDue(u, f, ofFile, n - 1, call);
      }
      forall i | 0 <= i < |calls|
        ensures calls[i].i == i
      {
      }
      OnceInBoth(before, calls);
    }
  }

  lemma OnceInBoth(a: seq<Call>, b: seq<Call>)
    requires NoneTwice(a) && forall call :: call in a ==> call !in b
    requires forall i :: 0 <= i < |b| ==> b[i].i == i
    ensures NoneTwice(a + b)
  {
    forall j, k | 0 <= j < k < |a + b|
      ensures (a + b)[j] != (a + b)[k]
    {
      if j < |a| <= k {
        assert a[j] in a && b[k - |a|] in b;
      }
    }
  }

  lemma {:induction false} OnceEach<T>(s: seq<T>, x: T)
    requires NoneTwice(s)
    ensures multiset(s)[x] == if x in s then 1 else 0
  {
    if s == [] {
    } else {
      var n := |s| - 1;
      assert s == s[..n] + [s[n]];
      OnceEach(s[..n], x);
    }
  }

  lemma SameOnce(a: seq<Call>, b: seq<Call>)
    requires NoneTwice(a) && NoneTwice(b) && forall call :: call in a <==> call in b
    ensures multiset(a) == multiset(b)
  {
    forall call
      ensures multiset(a)[call] == multiset(b)[call]
    {
      OnceEach(a, call);
      OnceEach(b, call);
    }
  }

  // ---------- a source whose parts are all reported ----------

  lemma CompleteCalls(u: Setup, c: Config, x: Work, f: ByteString, call: Call)
    requires u.step > 0 && Ok(u, x) && IngestSafety.Inv(c, x.s) && f in x.s.sources && f in x.s.ledger
    requires IngestSafety.SumsOf(x.s.sources[f], x.s.ledger[f])
    ensures var ofFile, parts := x.s.ledger[f].origin.FromFile?, x.s.sources[f].partsTotal;
            call in Of(x.log, |x.log|, f) <==> call in DueForFirst(u, f, ofFile, parts)
  {
    var ofFile, parts := x.s.ledger[f].origin.FromFile?, x.s.sources[f].partsTotal;
    assert Keeps(OnlyDue, u, x) && Keeps(AllDue, u, x);
    assert x.log[..|x.log|] == x.log;
    MembersOf(x.log, |x.log|, f, call);
    MembersDueForFirst(u, f, ofFile, parts, call);
    if call.fileHash == f && BeyondIt(x, call) {
      var v :| 0 <= v < |x.made| && Hashed(x.s.workers[v], call) && call.i < x.made[v];
      PartNotReported(c, x.s, v);
    }
  }

  lemma PartNotReported(c: Config, s: State, w: nat)
    requires IngestSafety.Inv(c, s) && IsAt(s, w, Hashing)
    ensures var job := Top(s.workers[w]);
            && job.fileHash in s.ledger && job.fileHash in s.sources
            && !IngestSafety.SumsOf(s.sources[job.fileHash], s.ledger[job.fileHash])
  {
    assert IngestSafety.Holds(IngestSafety.Hands, c, s) && IngestSafety.Holds(IngestSafety.Books, c, s);
    assert IngestSafety.HandOk(w, s.workers[w], s.ledger);
    var f := Top(s.workers[w]).fileHash;
    assert IngestSafety.SourceOk(s.sources[f], s.ledger[f]);
  }

  // ---------- places and digests ----------

  ghost function Mapped<A, B>(g: A -> B, s: seq<A>): (r: seq<B>)
    ensures |r| == |s| && forall i :: 0 <= i < |s| ==> r[i] == g(s[i])
  {
    seq(|s|, i requires 0 <= i < |s| => g(s[i]))
  }

  lemma MappedConcat<A, B>(g: A -> B, a: seq<A>, b: seq<A>)
    ensures Mapped(g, a + b) == Mapped(g, a) + Mapped(g, b)
  {
  }

  /** Rearranged lists have rearranged images. */
  lemma {:induction false} MappedPermuted<A, B>(g: A -> B, a: seq<A>, b: seq<A>)
    requires multiset(a) == multiset(b)
    ensures multiset(Mapped(g, a)) == multiset(Mapped(g, b))
  {
    if a == [] {
      assert |multiset(b)| == 0;
    } else {
      var n := |a| - 1;
      assert a == a[..n] + [a[n]];
      assert a[n] in multiset(b);
      var k :| 0 <= k < |b| && b[k] == a[n];
      var rest := b[..k] + b[k + 1..];
      Without(b, k);
      assert multiset(a[..n]) + multiset{a[n]} == multiset(rest) + multiset{b[k]};
      Cancelled(multiset(a[..n]), multiset(rest), a[n]);
      MappedPermuted(g, a[..n], rest);
      MappedConcat(g, a[..n], [a[n]]);
      Without(Mapped(g, b), k);
      assert Mapped(g, rest) == Mapped(g, b)[..k] + Mapped(g, b)[k + 1..];
      assert Mapped(g, [a[n]]) == [g(a[n])];
    }
  }

  lemma Cancelled<T>(a: multiset<T>, b: multiset<T>, x: T)
    requires a + multiset{x} == b + multiset{x}
    ensures a == b
  {
    forall y
      ensures a[y] == b[y]
    {
      assert (a + multiset{x})[y] == (b + multiset{x})[y];
    }
  }

  lemma Without<T>(s: seq<T>, k: nat)
    requires k < |s|
    ensures multiset(s) == multiset(s[..k] + s[k + 1..]) + multiset{s[k]}
  {
    assert s == s[..k] + [s[k]] + s[k + 1..];
  }

  function PlaceOf(call: Call): Placed {
    call.place
  }

  lemma PlacesOfPart(u: Setup, f: ByteString, ofFile: bool, p: nat)
    requires u.step > 0
    ensures Mapped(PlaceOf, DueFor(u, f, ofFile, p)) == u.TallyFor(f, ofFile, p).inserted
  {
    PlacesOfCalls(f, p, u.TallyFor(f, ofFile, p).inserted);
  }

  lemma PlacesOfCalls(f: ByteString, p: nat, due: seq<Placed>)
    ensures Mapped(PlaceOf, CallsFor(f, p, due)) == due
  {
  }

  lemma {:induction false} PlacesOfParts(u: Setup, f: ByteString, n: nat)
    requires u.step > 0
    ensures Mapped(PlaceOf, DueForFirst(u, f, true, n)) == u.TallyOfFirst(f, n).inserted
  {
    if n == 0 {
    } else {
      PlacesOfParts(u, f, n - 1);
      OneMorePlaces(u, f, n - 1);
    }
  }

  lemma OneMorePlaces(u: Setup, f: ByteString, p: nat)
    requires u.step > 0 && Mapped(PlaceOf, DueForFirst(u, f, true, p)) == u.TallyOfFirst(f, p).inserted
    ensures Mapped(PlaceOf, DueForFirst(u, f, true, p + 1)) == u.TallyOfFirst(f, p + 1).inserted
  {
    var before, due := DueForFirst(u, f, true, p), DueFor(u, f, true, p);
    MappedConcat(PlaceOf, before, due);
    PlacesOfPart(u, f, true, p);
    OneMorePart(u, f, p);
  }

  lemma PlacesOfSource(u: Setup, f: ByteString, ofFile: bool)
    requires u.Supported()
    ensures Mapped(PlaceOf, DueForFirst(u, f, ofFile, u.PartsOf(f, ofFile))) == u.TallyInOnePass(f).inserted
  {
    if ofFile {
      PlacesOfParts(u, f, u.PartsOf(f, ofFile));
      BuffersAreOnePass(u.content(f), u.step, u.size, u.labelled);
    } else {
      assert DueForFirst(u, f, false, 1) == DueForFirst(u, f, false, 0) + DueFor(u, f, false, 0);
      assert DueForFirst(u, f, false, 1) == DueFor(u, f, false, 0);
      PlacesOfPart(u, f, false, 0);
    }
  }

  /** The places of the blocks inserted for a source. */
  ghost function PlacesOf(log: seq<Call>, f: ByteString): seq<Placed> {
    Mapped(PlaceOf, Of(log, |log|, f))
  }

  lemma CompletePlaces(u: Setup, c: Config, x: Work, f: ByteString)
    requires u.Supported() && Ok(u, x) && IngestSafety.Inv(c, x.s) && f in x.s.sources && f in x.s.ledger
    requires IngestSafety.SumsOf(x.s.sources[f], x.s.ledger[f]) && AllMeasured(u, x.s)
    ensures multiset(PlacesOf(x.log, f)) == multiset(u.TallyInOnePass(f).inserted)
  {
    var ofFile, parts := x.s.ledger[f].origin.FromFile?, x.s.sources[f].partsTotal;
    assert Measured(u, f, x.s.sources[f], x.s.ledger[f]);
    assert Keeps(Distinct, u, x);
    OnceOf(x.log, |x.log|, f);
    OnceDue(u, f, ofFile, parts);
    forall call {
      CompleteCalls(u, c, x, f, call);
    }
    SameOnce(Of(x.log, |x.log|, f), DueForFirst(u, f, ofFile, parts));
    MappedPermuted(PlaceOf, Of(x.log, |x.log|, f), DueForFirst(u, f, ofFile, parts));
    PlacesOfSource(u, f, ofFile);
  }

  /** A place of the file that is not zero, with its block. */
  ghost predicate Stands(u: Setup, f: ByteString, p: Placed) {
    var file := u.content(f);
    exists n: nat :: n in OtherPlaces(file, u.step, u.size) && p == Placed(n * u.step, Window(file, n * u.step, u.size))
  }

  lemma InsertedOnBytes(u: Setup, f: ByteString, p: Placed)
    requires u.step > 0
    ensures multiset(u.TallyInOnePass(f).inserted)[p] == if Stands(u, f, p) then 1 else 0
  {
    var file, inserted := u.content(f), u.TallyInOnePass(f).inserted;
    var at := InsertsOnBytes(file, u.step, u.size, u.labelled);
    forall k, m | 0 <= k < m < |inserted|
      ensures inserted[k] != inserted[m]
    {
      OtherOffset(at[k], at[m], u.step);
    }
    OnceEach(inserted, p);
    if n: nat :| n in OtherPlaces(file, u.step, u.size) && p == Placed(n * u.step, Window(file, n * u.step, u.size)) {
      assert n in at;
      var k :| 0 <= k < |at| && at[k] == n;
      assert inserted[k] == p;
    }
    if p in inserted {
      var k :| 0 <= k < |inserted| && inserted[k] == p;
      assert at[k] in at;
    }
  }

  lemma OtherOffset(m: nat, n: nat, step: nat)
    requires m < n && step > 0
    ensures m * step < n * step
  {
  }

  /** Whatever the interleaving, no call is made twice, and when a source is stored its calls
      are for exactly the blocks that one pass over the source inserts: one for each place of
      the file that is not zero. */
  lemma InsertedAreOnePass(u: Setup, c: Config, workers: nat, acts: seq<Act>, works: seq<Work>, n: nat)
    requires u.Supported() && IsRun(u, c, workers, acts, works) && n <= |acts|
    ensures forall j, k :: 0 <= j < k < |works[n].log| ==> works[n].log[j] != works[n].log[k]
    ensures forall r :: r in works[n].s.stored ==>
                          multiset(PlacesOf(works[n].log, r.fileHash))
                          == multiset(u.TallyInOnePass(r.fileHash).inserted)
    ensures forall r, p :: r in works[n].s.stored ==>
                             multiset(PlacesOf(works[n].log, r.fileHash))[p]
                               == if Stands(u, r.fileHash, p) then 1 else 0
  {
    var x := works[n];
    RunIsSound(u, c, workers, acts, works, n);
    assert Has(Safe, u, c, x) && Has(Counted, u, c, x) && Has(Listed, u, c, x);
    assert Keeps(Distinct, u, x);
    assert IngestSafety.Holds(IngestSafety.Database, c, x.s) && IngestSafety.Holds(IngestSafety.Books, c, x.s);
    forall r | r in x.s.stored
      ensures multiset(PlacesOf(x.log, r.fileHash)) == multiset(u.TallyInOnePass(r.fileHash).inserted)
    {
      assert IngestSafety.RecordOk(r, x.s.sources);
      IngestSafety.CompleteSums(r.source, x.s.ledger[r.fileHash]);
      CompletePlaces(u, c, x, r.fileHash);
    }
    forall r, p | r in x.s.stored
      ensures multiset(PlacesOf(x.log, r.fileHash))[p] == if Stands(u, r.fileHash, p) then 1 else 0
    {
      InsertedOnBytes(u, r.fileHash, p);
    }
  }

  // ---------- in the hash data store ----------

  /** What a block's hash, entropy and label are, and which ids the sources have. */
  datatype Marks = Marks(digest: ByteString -> ByteString, entropy: ByteString -> U64,
                         blockLabel: ByteString -> ByteString, id: ByteString -> U64)
  {
    /** The call as it reaches the hash data store. */
    function Op(call: Call): HashDataRuns.Op {
      var block := call.place.block;
      HashDataRuns.Insert(digest(block), entropy(block), blockLabel(block), id(call.fileHash))
    }

    function Digest(): Placed -> ByteString {
      (p: Placed) => digest(p.block)
    }

    ghost function Ops(log: seq<Call>): (ops: seq<HashDataRuns.Op>)
      ensures |ops| == |log|
    {
      seq(|log|, i requires 0 <= i < |log| => Op(log[i]))
    }
  }

  /** Only calls for source f reach the store under the id of f. */
  ghost predicate OwnId(m: Marks, before: seq<HashDataRuns.Op>, log: seq<Call>, f: ByteString) {
    && (forall op :: op in before ==> op.source != m.id(f))
    && (forall call :: call in log && m.id(call.fileHash) == m.id(f) ==> call.fileHash == f)
  }

  lemma NotBefore(m: Marks, before: seq<HashDataRuns.Op>, log: seq<Call>, f: ByteString, h: ByteString)
    requires OwnId(m, before, log, f)
    ensures var ops := before + m.Ops(log);
            !HashDataRuns.Cited(ops, |before|, h, m.id(f)) && HashDataRuns.Counted(ops, |before|, h, m.id(f)) == 0
  {
    var ops := before + m.Ops(log);
    forall i | 0 <= i < |before|
      ensures ops[i].source != m.id(f)
    {
      assert ops[i] in before;
    }
    HashDataRuns.SubCountsOfRun(ops, |before|, h, m.id(f));
  }

  /** How many blocks of a list have the hash. */
  ghost function Occurrences(m: Marks, places: seq<Placed>, h: ByteString): nat {
    multiset(Mapped(m.Digest(), places))[h]
  }

  /** The places of the file that are not zero and whose block has the hash. */
  ghost function Hits(u: Setup, m: Marks, f: ByteString, h: ByteString): set<nat> {
    set n: nat | n in OtherPlaces(u.content(f), u.step, u.size)
                 && m.digest(Window(u.content(f), n * u.step, u.size)) == h
  }

  ghost function HitsIn(m: Marks, blocks: seq<Placed>, n: nat, h: ByteString): set<nat>
    requires n <= |blocks|
  {
    set i: nat | i in Others(blocks, n) && m.digest(blocks[i].block) == h
  }

  lemma {:induction false} FoundInBlocks(m: Marks, blocks: seq<Placed>, n: nat, labelled: set<ByteString>,
                                         h: ByteString)
    requires n <= |blocks|
    ensures Occurrences(m, TallyUpTo(blocks, n, labelled).inserted, h) == |HitsIn(m, blocks, n, h)|
  {
    if n == 0 {
      assert HitsIn(m, blocks, 0, h) == {};
    } else {
      FoundInBlocks(m, blocks, n - 1, labelled, h);
      OneMoreHit(m, blocks, n - 1, h);
      OneMoreFound(m, blocks, n - 1, labelled, h);
    }
  }

  predicate IsHit(m: Marks, block: ByteString, h: ByteString) {
    !Skipped(block) && m.digest(block) == h
  }

  lemma OneMoreHit(m: Marks, blocks: seq<Placed>, n: nat, h: ByteString)
    requires n < |blocks|
    ensures |HitsIn(m, blocks, n + 1, h)| == |HitsIn(m, blocks, n, h)| + if IsHit(m, blocks[n].block, h) then 1 else 0
  {
    assert HitsIn(m, blocks, n + 1, h)
           == HitsIn(m, blocks, n, h) + if IsHit(m, blocks[n].block, h) then {n} else {};
  }

  lemma OneMoreFound(m: Marks, blocks: seq<Placed>, n: nat, labelled: set<ByteString>, h: ByteString)
    requires n < |blocks|
    ensures Occurrences(m, TallyUpTo(blocks, n + 1, labelled).inserted, h)
            == Occurrences(m, TallyUpTo(blocks, n, labelled).inserted, h)
               + if IsHit(m, blocks[n].block, h) then 1 else 0
  {
    var before := TallyUpTo(blocks, n, labelled).inserted;
    if Skipped(blocks[n].block) {
      assert before + [] == before;
    } else {
      OneMorePlace(m, before, blocks[n], h);
    }
  }

  lemma FoundOnBytes(u: Setup, m: Marks, f: ByteString, h: ByteString)
    requires u.step > 0
    ensures Occurrences(m, u.TallyInOnePass(f).inserted, h) == |Hits(u, m, f, h)|
  {
    var file := u.content(f);
    var blocks := OnePass(file, |file|, u.step, u.size);
    FoundInBlocks(m, blocks, |blocks|, u.labelled, h);
    PlacesOfOnePass(file, u.step, u.size, u.labelled);
    forall n: nat {
      OnePassBytes(file, u.step, u.size, n);
    }
    assert HitsIn(m, blocks, |blocks|, h) == Hits(u, m, f, h);
  }

  lemma InsertCounted(ops: seq<HashDataRuns.Op>, k: nat, h: ByteString, s: nat)
    requires k < |ops| && ops[k].Insert?
    ensures HashDataRuns.Counted(ops, k + 1, h, s)
            == HashDataRuns.Counted(ops, k, h, s) + (if ops[k].hash == h && ops[k].source == s then 1 else 0)
    ensures HashDataRuns.Cited(ops, k + 1, h, s) <==>
              HashDataRuns.Cited(ops, k, h, s) || (ops[k].hash == h && ops[k].source == s)
  {
  }

  lemma OneMorePlace(m: Marks, places: seq<Placed>, p: Placed, h: ByteString)
    ensures Occurrences(m, places + [p], h) == Occurrences(m, places, h) + (if m.digest(p.block) == h then 1 else 0)
  {
    MappedConcat(m.Digest(), places, [p]);
    assert Mapped(m.Digest(), [p]) == [m.digest(p.block)];
  }

  lemma OneMoreOf(m: Marks, log: seq<Call>, n: nat, f: ByteString, h: ByteString)
    requires 0 < n <= |log|
    ensures var call := log[n - 1];
            Occurrences(m, Mapped(PlaceOf, Of(log, n, f)), h)
            == Occurrences(m, Mapped(PlaceOf, Of(log, n - 1, f)), h)
               + (if call.fileHash == f && m.Op(call).hash == h then 1 else 0)
  {
    var call := log[n - 1];
    if call.fileHash == f {
      MappedConcat(PlaceOf, Of(log, n - 1, f), [call]);
      assert Mapped(PlaceOf, [call]) == [call.place];
      OneMorePlace(m, Mapped(PlaceOf, Of(log, n - 1, f)), call.place, h);
    } else {
      assert Of(log, n, f) == Of(log, n - 1, f);
    }
  }

  lemma {:induction false} InsertsCounted(m: Marks, before: seq<HashDataRuns.Op>, log: seq<Call>, n: nat,
                                          f: ByteString, h: ByteString)
    requires n <= |log| && OwnId(m, before, log, f)
    ensures var ops, places := before + m.Ops(log), Mapped(PlaceOf, Of(log, n, f));
            && HashDataRuns.Counted(ops, |before| + n, h, m.id(f)) == Occurrences(m, places, h)
            && (HashDataRuns.Cited(ops, |before| + n, h, m.id(f)) <==> Occurrences(m, places, h) > 0)
  {
    var ops := before + m.Ops(log);
    if n == 0 {
      NotBefore(m, before, log, f, h);
    } else {
      InsertsCounted(m, before, log, n - 1, f, h);
      var k := |before| + n - 1;
      assert log[n - 1] in log && ops[k] == m.Op(log[n - 1]);
      InsertCounted(ops, k, h, m.id(f));
      OneMoreOf(m, log, n, f, h);
    }
  }

  /** In a store that did not know the source, a stored source is cited for just the hashes
      of the blocks at its places that are not zero, each with the number of those places
      clipped at 65535. */
  lemma SubCountsAreOnePass(u: Setup, c: Config, workers: nat, acts: seq<Act>, works: seq<Work>, n: nat, m: Marks,
                            before: seq<HashDataRuns.Op>, r: Record, h: ByteString)
    requires u.Supported() && IsRun(u, c, workers, acts, works) && n <= |acts|
    requires r in works[n].s.stored && OwnId(m, before, works[n].log, r.fileHash)
    ensures var ops := before + m.Ops(works[n].log);
            var found := |Hits(u, m, r.fileHash, h)|;
            var entry := HashDataRuns.State(ops, |ops|, h);
            && (found > 0 <==> entry.Some? && m.id(r.fileHash) in entry.value.subs)
            && (found > 0 ==> entry.value.subs[m.id(r.fileHash)] == if found <= 65535 then found else 65535)
  {
    FoundOnBytes(u, m, r.fileHash, h);
    InsertedAreOnePass(u, c, workers, acts, works, n);
    SubCountsOfPlaces(m, before, works[n].log, r.fileHash, u.TallyInOnePass(r.fileHash).inserted, h);
  }

  lemma CountedAsFound(m: Marks, before: seq<HashDataRuns.Op>, log: seq<Call>, f: ByteString, places: seq<Placed>,
                       h: ByteString)
    requires OwnId(m, before, log, f) && multiset(PlacesOf(log, f)) == multiset(places)
    ensures var ops, found := before + m.Ops(log), Occurrences(m, places, h);
            && HashDataRuns.Counted(ops, |ops|, h, m.id(f)) == found
            && (HashDataRuns.Cited(ops, |ops|, h, m.id(f)) <==> found > 0)
  {
    AllInsertsCounted(m, before, log, f, h);
    FoundPermuted(m, PlacesOf(log, f), places, h);
  }

  lemma AllInsertsCounted(m: Marks, before: seq<HashDataRuns.Op>, log: seq<Call>, f: ByteString, h: ByteString)
    requires OwnId(m, before, log, f)
    ensures var ops, found := before + m.Ops(log), Occurrences(m, PlacesOf(log, f), h);
            && HashDataRuns.Counted(ops, |ops|, h, m.id(f)) == found
            && (HashDataRuns.Cited(ops, |ops|, h, m.id(f)) <==> found > 0)
  {
    InsertsCounted(m, before, log, |log|, f, h);
  }

  lemma FoundPermuted(m: Marks, a: seq<Placed>, b: seq<Placed>, h: ByteString)
    requires multiset(a) == multiset(b)
    ensures Occurrences(m, a, h) == Occurrences(m, b, h)
  {
    MappedPermuted(m.Digest(), a, b);
  }

  lemma SubCountsOfPlaces(m: Marks, before: seq<HashDataRuns.Op>, log: seq<Call>, f: ByteString, places: seq<Placed>,
                          h: ByteString)
    requires OwnId(m, before, log, f) && multiset(PlacesOf(log, f)) == multiset(places)
    ensures var ops, found := before + m.Ops(log), Occurrences(m, places, h);
            var entry := HashDataRuns.State(ops, |ops|, h);
            && (found > 0 <==> entry.Some? && m.id(f) in entry.value.subs)
            && (found > 0 ==> entry.value.subs[m.id(f)] == Clip2(found))
  {
    var ops := before + m.Ops(log);
    CountedAsFound(m, before, log, f, places, h);
    HashDataRuns.SubCountsOfRun(ops, |ops|, h, m.id(f));
  }
}
