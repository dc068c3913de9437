/// The worker pool of the chunked download (src/app/p2p_chunks.go, downloadChunkedLibp2p): one
/// goroutine per chunk, a semaphore of four slots, a buffered channel of results, a goroutine that
/// closes it, and the collecting loop. Every channel operation, every locked region and every file
/// operation is one step; any step that is possible may happen next. Peers answer with any bytes.
module Swarm {
  import opened Text
  import opened Wrappers
  import opened Counting
  import opened Chunks

  const MAX_PARALLEL := 4

  /// What does not change during a download
  datatype Job = Job(hash: Bytes -> string, peers: seq<string>, chunks: seq<Chunk>)

  /// The place of chunk i's goroutine
  datatype Pc =
    | Waiting                     // sem <- struct{}{}
    | Checking                    // read the part file, compare digests
    | Picking                     // sched.pickPeer
    | Fetching(peer: string)      // libp2pDownloadChunk
    | Failing(failedPeer: string) // sched.recordError
    | Reporting(failed: bool)     // results <- chunkResult
    | Releasing                   // <-sem
    | Leaving                     // wg.Done
    | Gone

  datatype ChunkResult = ChunkResult(index: nat, failed: bool)

  datatype State = State(
    pcs: seq<Pc>, sem: nat, waitGroup: nat,
    results: seq<ChunkResult>, closed: bool,   // the channel
    received: seq<ChunkResult>,                // what the collecting loop has seen
    parts: map<nat, Bytes>,                    // chunk-0000, chunk-0001, ... on disk
    errorCounts: map<string, nat>,
    contacted: set<nat>)                       // chunks for which a peer was asked

  /// The outcome of libp2pDownloadChunk. A failing os.WriteFile leaves the part file unchanged
  /// (None) or with any contents.
  datatype Reply =
    | NoAnswer
    | Answer(data: Bytes)
    | AnswerNotWritten(unwritten: Bytes, left: Option<Bytes>)

  datatype Event =
    | Acquire(i: nat)
    | Check(i: nat, readable: bool)
    | Pick(i: nat)
    | Fetch(i: nat, reply: Reply)
    | CountError(i: nat)
    | Report(i: nat)
    | Release(i: nat)
    | Leave(i: nat)
    | CloseResults
    | Receive

  function Init(job: Job, parts: map<nat, Bytes>): State {
    State(seq(|job.chunks|, _ => Waiting), 0, |job.chunks|, [], false, [], parts, map[], {})
  }

  /// The test of the resume path
  predicate PartMatches(job: Job, parts: map<nat, Bytes>, i: nat)
    requires i < |job.chunks|
  {
    i in parts && SameDigest(job.hash(parts[i]), job.chunks[i].sha)
  }

  /// verifySHA256
  predicate Verified(job: Job, data: Bytes, i: nat)
    requires i < |job.chunks|
  {
    SameDigest(job.hash(data), Trim(job.chunks[i].sha))
  }

  predicate Enabled(job: Job, s: State, e: Event) {
    match e
    case Acquire(i) => i < |s.pcs| && s.pcs[i] == Waiting && s.sem < MAX_PARALLEL
    case Check(i, _) => i < |s.pcs| && s.pcs[i] == Checking
    case Pick(i) => i < |s.pcs| && s.pcs[i] == Picking
    case Fetch(i, _) => i < |s.pcs| && s.pcs[i].Fetching?
    case CountError(i) => i < |s.pcs| && s.pcs[i].Failing?
    case Report(i) => i < |s.pcs| && s.pcs[i].Reporting? && |s.results| < |job.chunks|
    case Release(i) => i < |s.pcs| && s.pcs[i] == Releasing && s.sem > 0
    case Leave(i) => i < |s.pcs| && s.pcs[i] == Leaving && s.waitGroup > 0
    case CloseResults => !s.closed && s.waitGroup == 0
    case Receive => s.results != []
  }

  predicate Fits(job: Job, s: State) {
    |s.pcs| == |job.chunks| && job.peers != []
  }

  function Apply(job: Job, s: State, e: Event): (s': State)
    requires Fits(job, s) && Enabled(job, s, e)
    ensures Fits(job, s')
  {
    match e
    case Acquire(i) => s.(pcs := s.pcs[i := Checking], sem := s.sem + 1)
    case Check(i, readable) =>
      s.(pcs := s.pcs[i := if readable && PartMatches(job, s.parts, i) then Reporting(false) else Picking])
    case Pick(i) => s.(pcs := s.pcs[i := Fetching(job.peers[PickIndex(s.errorCounts, i, job.peers)])])
    case Fetch(i, reply) =>
      var asked := s.(contacted := s.contacted + {i});
      (match reply
       case Answer(data) =>
         if Verified(job, data, i) then asked.(pcs := s.pcs[i := Reporting(false)], parts := s.parts[i := data])
         else asked.(pcs := s.pcs[i := Failing(s.pcs[i].peer)])
       case AnswerNotWritten(data, left) =>
         var failed := asked.(pcs := s.pcs[i := Failing(s.pcs[i].peer)]);
         if Verified(job, data, i) && left.Some? then failed.(parts := s.parts[i := left.value]) else failed
       case NoAnswer => asked.(pcs := s.pcs[i := Failing(s.pcs[i].peer)]))
    case CountError(i) =>
      var p := s.pcs[i].failedPeer;
      s.(pcs := s.pcs[i := Reporting(true)], errorCounts := s.errorCounts[p := Errors(s.errorCounts, p) + 1])
    case Report(i) => s.(pcs := s.pcs[i := Releasing], results := s.results + [ChunkResult(i, s.pcs[i].failed)])
    case Release(i) => s.(pcs := s.pcs[i := Leaving], sem := s.sem - 1)
    case Leave(i) => s.(pcs := s.pcs[i := Gone], waitGroup := s.waitGroup - 1)
    case CloseResults => s.(closed := true)
    case Receive => s.(received := s.received + [s.results[0]], results := s.results[1..])
  }

  /// The run from s through es ends in s'.
  ghost predicate Run(job: Job, s: State, es: seq<Event>, s': State)
    requires Fits(job, s)
    decreases |es|
  {
    if es == [] then s' == s else Enabled(job, s, es[0]) && Run(job, Apply(job, s, es[0]), es[1..], s')
  }

  /// The collecting loop has ended: the channel is closed and drained.
  predicate Collected(s: State) {
    s.closed && s.results == []
  }

  // ---------------------------------------------------------------- phases

  function InSlot(pc: Pc): nat {
    if pc.Waiting? || pc.Leaving? || pc.Gone? then 0 else 1
  }

  function Present(pc: Pc): nat {
    if pc.Gone? then 0 else 1
  }

  function Reported(pc: Pc): nat {
    if pc.Releasing? || pc.Leaving? || pc.Gone? then 1 else 0
  }

  /// Steps a goroutine still has to take, with one more for its result being received
  function StepsLeft(pc: Pc): nat {
    match pc
    case Waiting => 9
    case Checking => 8
    case Picking => 7
    case Fetching(_) => 6
    case Failing(_) => 5
    case Reporting(_) => 4
    case Releasing => 2
    case Leaving => 1
    case Gone => 0
  }

  /// Bounds the number of steps any run can still take.
  function Measure(s: State): nat {
    Sum(StepsLeft, s.pcs) + |s.results| + (if s.closed then 0 else 1)
  }

  function AllResults(s: State): seq<ChunkResult> {
    s.received + s.results
  }

  predicate HasResult(results: seq<ChunkResult>, i: int) {
    exists j :: 0 <= j < |results| && results[j].index == i
  }

  /// One result for each chunk whose goroutine has reported, and none for the others
  predicate OneEach(pcs: seq<Pc>, all: seq<ChunkResult>) {
    && (forall j | 0 <= j < |all| :: all[j].index < |pcs| && Reported(pcs[all[j].index]) == 1)
    && (forall j, k | 0 <= j < k < |all| :: all[j].index != all[k].index)
    && (forall i | 0 <= i < |pcs| && Reported(pcs[i]) == 1 :: HasResult(all, i))
  }

  predicate Pooled(s: State) {
    && s.sem == Sum(InSlot, s.pcs) <= MAX_PARALLEL
    && s.waitGroup == Sum(Present, s.pcs)
    && (s.closed ==> s.waitGroup == 0)
  }

  ghost predicate Inv(job: Job, s: State) {
    && Fits(job, s) && Pooled(s)
    && |AllResults(s)| == Sum(Reported, s.pcs)
    && OneEach(s.pcs, AllResults(s))
  }

  lemma InitInv(job: Job, parts: map<nat, Bytes>)
    requires job.peers != []
    ensures Inv(job, Init(job, parts))
    ensures Measure(Init(job, parts)) == 9 * |job.chunks| + 1
  {
    var n := |job.chunks|;
    SumRepeat(InSlot, n, Waiting);
    SumRepeat(Present, n, Waiting);
    SumRepeat(Reported, n, Waiting);
    SumRepeat(StepsLeft, n, Waiting);
  }

  /// A step of chunk i's goroutine changes the sums by its own terms only.
  lemma PcStep(s: State, i: nat, pc: Pc)
    requires i < |s.pcs|
    ensures Sum(InSlot, s.pcs[i := pc]) + InSlot(s.pcs[i]) == Sum(InSlot, s.pcs) + InSlot(pc)
    ensures Sum(Present, s.pcs[i := pc]) + Present(s.pcs[i]) == Sum(Present, s.pcs) + Present(pc)
    ensures Sum(Reported, s.pcs[i := pc]) + Reported(s.pcs[i]) == Sum(Reported, s.pcs) + Reported(pc)
    ensures Sum(StepsLeft, s.pcs[i := pc]) + StepsLeft(s.pcs[i]) == Sum(StepsLeft, s.pcs) + StepsLeft(pc)
    ensures Sum(Present, s.pcs) >= Present(s.pcs[i])
  {
    SumUpdate(InSlot, s.pcs, i, pc);
    SumUpdate(Present, s.pcs, i, pc);
    SumUpdate(Reported, s.pcs, i, pc);
    SumUpdate(StepsLeft, s.pcs, i, pc);
    SumAtLeast(Present, s.pcs, i);
  }

  function Mover(e: Event): Option<nat> {
    match e
    case CloseResults => None
    case Receive => None
    case _ => Some(e.i)
  }

  /// What a step of chunk i's goroutine does to the pool
  predicate Moved(s: State, s': State, i: nat, report: bool) {
    && i < |s.pcs| && |s'.pcs| == |s.pcs| && s'.pcs == s.pcs[i := s'.pcs[i]]
    && Present(s.pcs[i]) == 1
    && s'.sem + InSlot(s.pcs[i]) == s.sem + InSlot(s'.pcs[i])
    && (InSlot(s'.pcs[i]) > InSlot(s.pcs[i]) ==> s.sem < MAX_PARALLEL)
    && s'.waitGroup + 1 == s.waitGroup + Present(s'.pcs[i])
    && s'.closed == s.closed && s'.received == s.received
    && StepsLeft(s'.pcs[i]) + (if report then 1 else 0) < StepsLeft(s.pcs[i])
    && (if report then
          s.pcs[i].Reporting? && s'.pcs[i] == Releasing && s'.results == s.results + [ChunkResult(i, s.pcs[i].failed)]
        else
          Reported(s'.pcs[i]) == Reported(s.pcs[i]) && s'.results == s.results)
  }

  lemma StepMoves(job: Job, s: State, e: Event)
    requires Fits(job, s) && Enabled(job, s, e) && Mover(e).Some?
    ensures Moved(s, Apply(job, s, e), Mover(e).value, e.Report?)
  {
  }

  lemma MovedCounts(s: State, s': State, i: nat, report: bool)
    requires Pooled(s) && Moved(s, s', i, report)
    ensures Pooled(s') && Measure(s') < Measure(s)
  {
    PcStep(s, i, s'.pcs[i]);
  }

  lemma MovedResults(s: State, s': State, i: nat, report: bool)
    requires Moved(s, s', i, report)
    requires |AllResults(s)| == Sum(Reported, s.pcs) && OneEach(s.pcs, AllResults(s))
    ensures |AllResults(s')| == Sum(Reported, s'.pcs) && OneEach(s'.pcs, AllResults(s'))
  {
    PcStep(s, i, s'.pcs[i]);
    if report {
      OneEachReport(s.pcs, i, AllResults(s), s.pcs[i].failed);
      assert AllResults(s') == AllResults(s) + [ChunkResult(i, s.pcs[i].failed)];
    } else {
      OneEachKept(s.pcs, i, s'.pcs[i], AllResults(s));
    }
  }

  lemma OneEachKept(pcs: seq<Pc>, i: nat, pc: Pc, all: seq<ChunkResult>)
    requires i < |pcs| && Reported(pcs[i]) == Reported(pc) && OneEach(pcs, all)
    ensures OneEach(pcs[i := pc], all)
  {
  }

  lemma OneEachReport(pcs: seq<Pc>, i: nat, all: seq<ChunkResult>, failed: bool)
    requires i < |pcs| && Reported(pcs[i]) == 0 && OneEach(pcs, all)
    ensures OneEach(pcs[i := Releasing], all + [ChunkResult(i, failed)])
  {
    var pcs', all' := pcs[i := Releasing], all + [ChunkResult(i, failed)];
    forall k | 0 <= k < |pcs'| && Reported(pcs'[k]) == 1 ensures HasResult(all', k) {
      if k == i {
        assert all'[|all|].index == i;
      } else {
        var j :| 0 <= j < |all| && all[j].index == k;
        assert all'[j].index == k;
      }
    }
  }

  /// Every step keeps the invariant and brings the run closer to its end.
  lemma StepInv(job: Job, s: State, e: Event)
    requires Inv(job, s) && Enabled(job, s, e)
    ensures Inv(job, Apply(job, s, e)) && Measure(Apply(job, s, e)) < Measure(s)
  {
    var s' := Apply(job, s, e);
    match Mover(e) {
      case Some(i) =>
        StepMoves(job, s, e);
        MovedCounts(s, s', i, e.Report?);
        MovedResults(s, s', i, e.Report?);
      case None =>
        QuietStep(job, s, e);
    }
  }

  lemma {:induction false} RunInv(job: Job, s: State, es: seq<Event>, s': State)
    requires Inv(job, s) && Run(job, s, es, s')
    ensures Inv(job, s') && Measure(s') + |es| <= Measure(s)
    decreases |es|
  {
    if es != [] {
      StepInv(job, s, es[0]);
      RunInv(job, Apply(job, s, es[0]), es[1..], s');
    }
  }

  /// Every interleaving ends: no run is longer than nine steps per chunk and one.
  lemma EveryRunEnds(job: Job, parts: map<nat, Bytes>, es: seq<Event>, s': State)
    requires job.peers != [] && Run(job, Init(job, parts), es, s')
    ensures |es| <= 9 * |job.chunks| + 1
    ensures Sum(InSlot, s'.pcs) <= 4
  {
    InitInv(job, parts);
    RunInv(job, Init(job, parts), es, s');
  }

  /// The next step of a goroutine that holds a slot or is leaving, whatever its peer does
  function NextStep(pc: Pc, i: nat, readable: bool, reply: Reply): Event {
    match pc
    case Waiting => Acquire(i)
    case Checking => Check(i, readable)
    case Picking => Pick(i)
    case Fetching(_) => Fetch(i, reply)
    case Failing(_) => CountError(i)
    case Reporting(_) => Report(i)
    case Releasing => Release(i)
    case _ => Leave(i)
  }

  lemma WorkerCanStep(job: Job, s: State, i: nat, readable: bool, reply: Reply)
    requires Inv(job, s) && i < |s.pcs| && s.pcs[i] != Waiting && s.pcs[i] != Gone
    ensures Enabled(job, s, NextStep(s.pcs[i], i, readable, reply))
  {
    SumAtLeast(InSlot, s.pcs, i);
    SumAtLeast(Present, s.pcs, i);
    SumAtMostLength(Reported, s.pcs);
  }

  /// No deadlock: until the collecting loop has ended, some step is possible, and a goroutine that
  /// waits for its peer can go on with every reply.
  lemma NeverStuck(job: Job, s: State, readable: bool, reply: Reply) returns (e: Event)
    requires Inv(job, s) && !Collected(s)
    ensures Enabled(job, s, e)
    ensures e.Fetch? ==> e.reply == reply
    ensures e.Check? ==> e.readable == readable
  {
    if i: nat :| i < |s.pcs| && s.pcs[i] != Waiting && s.pcs[i] != Gone {
      WorkerCanStep(job, s, i, readable, reply);
      e := NextStep(s.pcs[i], i, readable, reply);
    } else if i: nat :| i < |s.pcs| && s.pcs[i] == Waiting {
      SumZero(InSlot, s.pcs);
      e := Acquire(i);
    } else {
      SumZero(Present, s.pcs);
      e := if s.results == [] then CloseResults else Receive;
    }
  }

  /// When the collecting loop ends it has received exactly one result for every chunk, and every
  /// goroutine is gone.
  lemma CollectedResults(job: Job, s: State)
    requires Inv(job, s) && Collected(s)
    ensures |s.received| == |job.chunks|
    ensures forall j, k | 0 <= j < k < |s.received| :: s.received[j].index != s.received[k].index
    ensures forall i | 0 <= i < |job.chunks| :: HasResult(s.received, i)
    ensures forall i | 0 <= i < |s.pcs| :: s.pcs[i] == Gone
  {
    assert AllResults(s) == s.received;
    SumZero(Present, s.pcs);
    assert forall i | 0 <= i < |s.pcs| :: Present(s.pcs[i]) == 0;
    SumAtMostLength(Reported, s.pcs);
    forall i | 0 <= i < |job.chunks| ensures HasResult(s.received, i) {
      assert Reported(s.pcs[i]) == 1;
    }
  }

  /// Position j holds the first failure.
  predicate FirstFailure(received: seq<ChunkResult>, j: nat, index: nat) {
    j < |received| && received[j] == ChunkResult(index, true) && forall k | 0 <= k < j :: !received[k].failed
  }

  /// The collecting loop: the first failure received
  method FirstError(received: seq<ChunkResult>) returns (firstErr: Option<nat>)
    ensures firstErr.None? <==> forall j | 0 <= j < |received| :: !received[j].failed
    ensures firstErr.Some? ==> exists j :: FirstFailure(received, j, firstErr.value)
  {
    firstErr := None;
    ghost var at: nat := 0;
    for j := 0 to |received|
      invariant firstErr.None? ==> forall k | 0 <= k < j :: !received[k].failed
      invariant firstErr.Some? ==> FirstFailure(received, at, firstErr.value)
    {
      if received[j].failed && firstErr.None? {
        firstErr, at := Some(received[j].index), j;
      }
    }
  }

  // ---------------------------------------------------------------- part files

  /// Digests in the manifest carry no surrounding blanks, as buildChunkManifest writes them.
  ghost predicate CleanDigests(job: Job) {
    forall i | 0 <= i < |job.chunks| :: Trim(job.chunks[i].sha) == job.chunks[i].sha
  }

  /// A chunk reported as good has a matching part file; its goroutine does not touch the file again.
  ghost predicate PartsInv(job: Job, s: State) {
    && Fits(job, s)
    && (forall i | 0 <= i < |s.pcs| && s.pcs[i] == Reporting(false) :: PartMatches(job, s.parts, i))
    && (forall r | r in AllResults(s) && !r.failed :: r.index < |s.pcs| && PartMatches(job, s.parts, r.index))
  }

  /// A part file changes only while its own goroutine fetches it, and a good report follows a match.
  lemma StepPartFiles(job: Job, s: State, e: Event)
    requires Fits(job, s) && CleanDigests(job) && Enabled(job, s, e)
    ensures var s' := Apply(job, s, e);
            forall i | 0 <= i < |s.pcs| ::
              && (!(e.Fetch? && e.i == i) ==>
                    ((i in s'.parts <==> i in s.parts) && (i in s.parts ==> s'.parts[i] == s.parts[i])))
              && (s'.pcs[i] == Reporting(false) && s.pcs[i] != Reporting(false) ==> PartMatches(job, s'.parts, i))
  {
  }

  lemma StepParts(job: Job, s: State, e: Event)
    requires Inv(job, s) && PartsInv(job, s) && CleanDigests(job) && Enabled(job, s, e)
    ensures PartsInv(job, Apply(job, s, e))
  {
    var s' := Apply(job, s, e);
    StepPartFiles(job, s, e);
    forall r | r in AllResults(s') && !r.failed ensures r.index < |s'.pcs| && PartMatches(job, s'.parts, r.index) {
      if r in AllResults(s) {
        assert Reported(s.pcs[r.index]) == 1;
      } else {
        NewResult(job, s, e, r);
      }
    }
  }

  lemma NewResult(job: Job, s: State, e: Event, r: ChunkResult)
    requires Fits(job, s) && Enabled(job, s, e) && r in AllResults(Apply(job, s, e)) && r !in AllResults(s)
    ensures e.Report? && r == ChunkResult(e.i, s.pcs[e.i].failed)
  {
    match Mover(e) {
      case Some(_) => StepMoves(job, s, e);
      case None => QuietStep(job, s, e);
    }
  }

  lemma QuietStep(job: Job, s: State, e: Event)
    requires Fits(job, s) && Enabled(job, s, e) && Mover(e).None?
    ensures AllResults(Apply(job, s, e)) == AllResults(s)
  {
  }

  /// Chunk i's part file is lost by a step only when its digest check could not read it and the file
  /// was then overwritten by a write that failed.
  ghost predicate LosesPart(job: Job, s: State, e: Event, i: nat)
    requires Fits(job, s) && i < |job.chunks|
  {
    && e.Fetch? && e.i == i && e.reply.AnswerNotWritten? && Verified(job, e.reply.unwritten, i)
    && e.reply.left.Some? && !SameDigest(job.hash(e.reply.left.value), job.chunks[i].sha)
  }

  lemma StepKeepsPart(job: Job, s: State, e: Event, i: nat)
    requires Fits(job, s) && CleanDigests(job) && Enabled(job, s, e) && i < |job.chunks| && PartMatches(job, s.parts, i)
    ensures PartMatches(job, Apply(job, s, e).parts, i) <==> !LosesPart(job, s, e, i)
  {
  }

  /// Some event of the run loses the part in the state it meets.
  ghost predicate LosesInRun(job: Job, s: State, es: seq<Event>, i: nat)
    requires Fits(job, s) && i < |job.chunks|
    decreases |es|
  {
    && es != [] && Enabled(job, s, es[0])
    && (LosesPart(job, s, es[0], i) || LosesInRun(job, Apply(job, s, es[0]), es[1..], i))
  }

  /// The part does not match and its goroutine is past its only write.
  predicate Lost(job: Job, s: State, i: nat)
    requires i < |job.chunks| && i < |s.pcs|
  {
    && !PartMatches(job, s.parts, i)
    && (s.pcs[i].Failing? || s.pcs[i].Reporting? || Reported(s.pcs[i]) == 1)
  }

  lemma LostStep(job: Job, s: State, e: Event, i: nat)
    requires Fits(job, s) && Enabled(job, s, e) && i < |job.chunks| && Lost(job, s, i)
    ensures Lost(job, Apply(job, s, e), i)
  {
    if Mover(e).Some? {
      StepMoves(job, s, e);
    }
  }

  lemma {:induction false} LostForGood(job: Job, s: State, es: seq<Event>, s': State, i: nat)
    requires Fits(job, s) && Run(job, s, es, s') && i < |job.chunks| && Lost(job, s, i)
    ensures Fits(job, s') && Lost(job, s', i)
    decreases |es|
  {
    if es != [] {
      LostStep(job, s, es[0], i);
      LostForGood(job, Apply(job, s, es[0]), es[1..], s', i);
    }
  }

  /// Over every run from a state where the part matches: it matches at the end exactly when no event of
  /// the run lost it, for what is lost is never written again.
  lemma {:induction false} PartKeptIff(job: Job, s: State, es: seq<Event>, s': State, i: nat)
    requires Fits(job, s) && CleanDigests(job) && Run(job, s, es, s')
    requires i < |job.chunks| && PartMatches(job, s.parts, i)
    ensures Fits(job, s') && (PartMatches(job, s'.parts, i) <==> !LosesInRun(job, s, es, i))
    decreases |es|
  {
    if es != [] {
      StepKeepsPart(job, s, es[0], i);
      if LosesPart(job, s, es[0], i) {
        LostForGood(job, Apply(job, s, es[0]), es[1..], s', i);
      } else {
        PartKeptIff(job, Apply(job, s, es[0]), es[1..], s', i);
      }
    }
  }

  /// Some check of a part file in the run failed to read it although it was there and matched.
  ghost predicate UnreadGoodPart(job: Job, s: State, es: seq<Event>, i: nat)
    requires Fits(job, s) && i < |job.chunks|
    decreases |es|
  {
    && es != [] && Enabled(job, s, es[0])
    && ((es[0] == Check(i, false) && PartMatches(job, s.parts, i))
        || UnreadGoodPart(job, Apply(job, s, es[0]), es[1..], i))
  }

  /// Before its check, or after finding its part good, a goroutine has not asked any peer.
  predicate Untroubled(s: State, i: nat)
    requires i < |s.pcs|
  {
    && i !in s.contacted
    && (s.pcs[i] == Waiting || s.pcs[i] == Checking || s.pcs[i] == Reporting(false) || Reported(s.pcs[i]) == 1)
  }

  lemma UntroubledStep(job: Job, s: State, e: Event, i: nat)
    requires Fits(job, s) && CleanDigests(job) && Enabled(job, s, e)
    requires i < |job.chunks| && PartMatches(job, s.parts, i) && Untroubled(s, i) && e != Check(i, false)
    ensures PartMatches(job, Apply(job, s, e).parts, i) && Untroubled(Apply(job, s, e), i)
  {
    assert !(e.Fetch? && e.i == i);
  }

  /// A part that matched at the start still matches at the end, and no peer is asked for it, unless
  /// reading it failed.
  lemma {:induction false} GoodPartsStay(job: Job, s: State, es: seq<Event>, s': State, i: nat)
    requires Fits(job, s) && CleanDigests(job) && Run(job, s, es, s')
    requires i < |job.chunks| && PartMatches(job, s.parts, i) && Untroubled(s, i)
    requires !UnreadGoodPart(job, s, es, i)
    ensures Fits(job, s') && PartMatches(job, s'.parts, i) && i !in s'.contacted
    decreases |es|
  {
    if es != [] {
      UntroubledStep(job, s, es[0], i);
      GoodPartsStay(job, Apply(job, s, es[0]), es[1..], s', i);
    }
  }

  /// Either a peer has been asked for chunk i, or its part does not match and the asking is to come.
  predicate Needy(job: Job, s: State, i: nat)
    requires i < |job.chunks| && i < |s.pcs|
  {
    || i in s.contacted
    || (!PartMatches(job, s.parts, i) && (s.pcs[i] in {Waiting, Checking, Picking} || s.pcs[i].Fetching?))
  }

  lemma NeedyStep(job: Job, s: State, e: Event, i: nat)
    requires Fits(job, s) && Enabled(job, s, e) && i < |job.chunks| && Needy(job, s, i)
    ensures Needy(job, Apply(job, s, e), i)
  {
    if Mover(e).Some? {
      StepMoves(job, s, e);
    }
  }

  lemma {:induction false} BadPartsAreFetched(job: Job, s: State, es: seq<Event>, s': State, i: nat)
    requires Fits(job, s) && Run(job, s, es, s') && i < |job.chunks| && Needy(job, s, i)
    ensures Fits(job, s') && Needy(job, s', i)
    decreases |es|
  {
    if es != [] {
      NeedyStep(job, s, es[0], i);
      BadPartsAreFetched(job, Apply(job, s, es[0]), es[1..], s', i);
    }
  }

  ghost predicate AllReadable(es: seq<Event>) {
    forall j | 0 <= j < |es| && es[j].Check? :: es[j].readable
  }

  lemma {:induction false} ReadableRun(job: Job, s: State, es: seq<Event>, s': State, i: nat)
    requires Fits(job, s) && Run(job, s, es, s') && i < |job.chunks| && AllReadable(es)
    ensures !UnreadGoodPart(job, s, es, i)
    decreases |es|
  {
    if es != [] {
      assert forall j | 0 <= j < |es| - 1 :: es[1..][j] == es[j + 1];
      ReadableRun(job, Apply(job, s, es[0]), es[1..], s', i);
    }
  }

  /// A finished run whose part files could be read asked peers for exactly the chunks whose parts
  /// did not match when it began.
  lemma ContactsTheRemaining(job: Job, parts: map<nat, Bytes>, es: seq<Event>, s': State, i: nat)
    requires job.peers != [] && CleanDigests(job) && i < |job.chunks|
    requires Run(job, Init(job, parts), es, s') && Collected(s') && AllReadable(es)
    ensures i in s'.contacted <==> !PartMatches(job, parts, i)
  {
    InitInv(job, parts);
    RunInv(job, Init(job, parts), es, s');
    CollectedResults(job, s');
    if PartMatches(job, parts, i) {
      ReadableRun(job, Init(job, parts), es, s', i);
      GoodPartsStay(job, Init(job, parts), es, s', i);
    } else {
      BadPartsAreFetched(job, Init(job, parts), es, s', i);
    }
  }

  /// A download without failures leaves a matching part for every chunk.
  lemma {:induction false} RunParts(job: Job, s: State, es: seq<Event>, s': State)
    requires Inv(job, s) && PartsInv(job, s) && CleanDigests(job) && Run(job, s, es, s')
    ensures PartsInv(job, s')
    decreases |es|
  {
    if es != [] {
      StepInv(job, s, es[0]);
      StepParts(job, s, es[0]);
      RunParts(job, Apply(job, s, es[0]), es[1..], s');
    }
  }

  lemma CollectedParts(job: Job, s: State)
    requires Inv(job, s) && PartsInv(job, s) && Collected(s)
    requires forall j | 0 <= j < |s.received| :: !s.received[j].failed
    ensures forall i | 0 <= i < |job.chunks| :: PartMatches(job, s.parts, i)
  {
    CollectedResults(job, s);
    forall i | 0 <= i < |job.chunks| ensures PartMatches(job, s.parts, i) {
      assert HasResult(s.received, i);
      var j :| 0 <= j < |s.received| && s.received[j].index == i;
      assert AllResults(s)[j] in AllResults(s);
    }
  }

  lemma AllPartsMatch(job: Job, parts: map<nat, Bytes>, es: seq<Event>, s': State)
    requires job.peers != [] && CleanDigests(job)
    requires Run(job, Init(job, parts), es, s') && Collected(s')
    requires forall j | 0 <= j < |s'.received| :: !s'.received[j].failed
    ensures forall i | 0 <= i < |job.chunks| :: PartMatches(job, s'.parts, i)
  {
    InitInv(job, parts);
    RunInv(job, Init(job, parts), es, s');
    RunParts(job, Init(job, parts), es, s');
    CollectedParts(job, s');
  }

  // ---------------------------------------------------------------- how progress can be lost

  function OneChunk(hash: Bytes -> string, good: Bytes): Job {
    Job(hash, ["peer"], [Chunk(0, 0, |good|, hash(good))])
  }

  /// The check could not read the part, and a peer is about to be asked for the chunk.
  lemma UnreadPartIsFetched(job: Job, parts: map<nat, Bytes>) returns (s: State)
    requires |job.chunks| == 1 && job.peers != []
    ensures Run(job, Init(job, parts), [Acquire(0)] + ([Check(0, false)] + ([Pick(0)] + [])), s)
    ensures Fits(job, s) && s.pcs[0].Fetching? && s.parts == parts
  {
    var s0 := Init(job, parts);
    var s1 := Apply(job, s0, Acquire(0));
    assert s1.pcs == [Checking];
    var s2 := Apply(job, s1, Check(0, false));
    assert s2.pcs == [Picking];
    s := Apply(job, s2, Pick(0));
    RunFirst(job, s2, Pick(0), [], s);
    RunFirst(job, s1, Check(0, false), [Pick(0)] + [], s);
    RunFirst(job, s0, Acquire(0), [Check(0, false)] + ([Pick(0)] + []), s);
  }

  /// The chunk is fetched again, and the write fails half way.
  lemma HalfWrittenPart(job: Job, s: State, good: Bytes, cut: Bytes) returns (end: State)
    requires Fits(job, s) && |job.chunks| == 1 && s.pcs[0].Fetching? && Verified(job, good, 0)
    requires !SameDigest(job.hash(cut), job.chunks[0].sha)
    ensures Run(job, s, [Fetch(0, AnswerNotWritten(good, Some(cut)))] + [], end) && !PartMatches(job, end.parts, 0)
  {
    var e := Fetch(0, AnswerNotWritten(good, Some(cut)));
    end := Apply(job, s, e);
    RunFirst(job, s, e, [], end);
  }

  /// A matching part can be lost: its check fails to read it, it is fetched again, and the write
  /// fails half way.
  lemma UnreadPartCanBeLost(
    hash: Bytes -> string, good: Bytes, cut: Bytes) returns (job: Job, es: seq<Event>, end: State)
    requires HexDigests(hash) && hash(cut) != hash(good)
    ensures job.peers != [] && |job.chunks| == 1 && CleanDigests(job)
    ensures PartMatches(job, map[0 := good], 0)
    ensures Run(job, Init(job, map[0 := good]), es, end) && !PartMatches(job, end.parts, 0)
  {
    HexIsClean(hash(good));
    HexIsClean(hash(cut));
    job := OneChunk(hash, good);
    var s := UnreadPartIsFetched(job, map[0 := good]);
    end := HalfWrittenPart(job, s, good, cut);
    var before := [Acquire(0)] + ([Check(0, false)] + ([Pick(0)] + []));
    var write := [Fetch(0, AnswerNotWritten(good, Some(cut)))] + [];
    RunConcat(job, Init(job, map[0 := good]), before, s, write, end);
    es := before + write;
  }

  lemma {:induction false} RunConcat(job: Job, s: State, es: seq<Event>, t: State, fs: seq<Event>, u: State)
    requires Fits(job, s) && Run(job, s, es, t) && Fits(job, t) && Run(job, t, fs, u)
    ensures Run(job, s, es + fs, u)
    decreases |es|
  {
    if es == [] {
      assert es + fs == fs;
    } else {
      RunConcat(job, Apply(job, s, es[0]), es[1..], t, fs, u);
      assert (es + fs)[0] == es[0] && (es + fs)[1..] == es[1..] + fs;
    }
  }

  lemma RunFirst(job: Job, s: State, e: Event, es: seq<Event>, end: State)
    requires Fits(job, s) && Enabled(job, s, e) && Run(job, Apply(job, s, e), es, end)
    ensures Run(job, s, [e] + es, end)
  {
    assert ([e] + es)[1..] == es;
  }
}
