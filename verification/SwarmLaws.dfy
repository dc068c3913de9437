/// What the worker pool reports and whom it asks, told by the events of a run: which chunks count as good,
/// whose errors are counted, and which peer is asked.
module SwarmLaws {
  import opened Text
  import opened Wrappers
  import opened Counting
  import opened Chunks
  import opened Swarm

  // ---------------------------------------------------------------- which chunks are good

  /// The same hexadecimal digest, letter case aside
  predicate CaseAside(a: string, b: string) {
    |a| == |b| && forall k | 0 <= k < |a| :: AsciiLower(a[k]) == AsciiLower(b[k])
  }

  /// The event reads a matching part of chunk i, or stores a reply with its digest.
  predicate Settles(job: Job, s: State, e: Event, i: nat)
    requires i < |job.chunks|
  {
    || (e == Check(i, true) && i in s.parts && CaseAside(job.hash(s.parts[i]), job.chunks[i].sha))
    || (e.Fetch? && e.i == i && e.reply.Answer? && CaseAside(job.hash(e.reply.data), Trim(job.chunks[i].sha)))
  }

  /// Some event of the run settles chunk i in the state it meets.
  ghost predicate SettledInRun(job: Job, s: State, es: seq<Event>, i: nat)
    requires Fits(job, s) && i < |job.chunks|
    decreases |es|
  {
    && es != [] && Enabled(job, s, es[0])
    && (Settles(job, s, es[0], i) || SettledInRun(job, Apply(job, s, es[0]), es[1..], i))
  }

  predicate Undecided(pc: Pc) {
    pc.Waiting? || pc.Checking? || pc.Picking? || pc.Fetching?
  }

  /// Chunk i's goroutine is about to report, or has reported, this outcome.
  predicate Says(s: State, i: nat, failed: bool)
    requires i < |s.pcs|
  {
    && !Undecided(s.pcs[i])
    && (s.pcs[i] == Reporting(failed) || (failed && s.pcs[i].Failing?) || ChunkResult(i, failed) in AllResults(s))
  }

  lemma ResultsStay(job: Job, s: State, e: Event, r: ChunkResult)
    requires Fits(job, s) && Enabled(job, s, e) && r in AllResults(s)
    ensures r in AllResults(Apply(job, s, e))
  {
    match Mover(e) {
      case Some(_) => StepMoves(job, s, e);
      case None => QuietStep(job, s, e);
    }
  }

  /// A decided goroutine asks no peer and checks no part any more.
  lemma DecidedStays(job: Job, s: State, e: Event, i: nat)
    requires Fits(job, s) && Enabled(job, s, e) && i < |s.pcs| && !Undecided(s.pcs[i])
    ensures !Undecided(Apply(job, s, e).pcs[i]) && !Settles(job, s, e, i)
  {
  }

  lemma SaysStays(job: Job, s: State, e: Event, i: nat, failed: bool)
    requires Fits(job, s) && Enabled(job, s, e) && i < |s.pcs| && Says(s, i, failed)
    ensures Says(Apply(job, s, e), i, failed)
  {
    DecidedStays(job, s, e, i);
    if ChunkResult(i, failed) in AllResults(s) {
      ResultsStay(job, s, e, ChunkResult(i, failed));
    } else if e == Report(i) {
      assert Apply(job, s, e).results == s.results + [ChunkResult(i, failed)];
    }
  }

  /// An undecided goroutine is decided by its own events only: for good by one that settles its chunk.
  lemma DecidingStep(job: Job, s: State, e: Event, i: nat)
    requires Fits(job, s) && Enabled(job, s, e) && i < |s.pcs| && Undecided(s.pcs[i])
    ensures var s' := Apply(job, s, e);
            if Settles(job, s, e, i) then Says(s', i, false) else Undecided(s'.pcs[i]) || Says(s', i, true)
  {
  }

  lemma {:induction false} SaysToTheEnd(job: Job, s: State, es: seq<Event>, s': State, i: nat, failed: bool)
    requires Fits(job, s) && Run(job, s, es, s') && i < |s.pcs| && Says(s, i, failed)
    ensures Fits(job, s') && Says(s', i, failed) && !SettledInRun(job, s, es, i)
    decreases |es|
  {
    if es != [] {
      DecidedStays(job, s, es[0], i);
      SaysStays(job, s, es[0], i, failed);
      SaysToTheEnd(job, Apply(job, s, es[0]), es[1..], s', i, failed);
    }
  }

  lemma {:induction false} DecidedInRun(job: Job, s: State, es: seq<Event>, s': State, i: nat)
    requires Fits(job, s) && Run(job, s, es, s') && i < |s.pcs| && Undecided(s.pcs[i])
    ensures Fits(job, s')
    ensures if SettledInRun(job, s, es, i) then Says(s', i, false) else Undecided(s'.pcs[i]) || Says(s', i, true)
    decreases |es|
  {
    if es != [] {
      var next := Apply(job, s, es[0]);
      DecidingStep(job, s, es[0], i);
      if Settles(job, s, es[0], i) {
        SaysToTheEnd(job, next, es[1..], s', i, false);
      } else if Undecided(next.pcs[i]) {
        DecidedInRun(job, next, es[1..], s', i);
      } else {
        SaysToTheEnd(job, next, es[1..], s', i, true);
      }
    }
  }

  lemma SaidIsReceived(job: Job, s: State, j: nat, failed: bool)
    requires Inv(job, s) && Collected(s) && j < |s.received|
    ensures s.received[j].index < |job.chunks|
    ensures Says(s, s.received[j].index, failed) ==> s.received[j].failed == failed
    ensures !Undecided(s.pcs[s.received[j].index])
  {
    CollectedResults(job, s);
    assert AllResults(s) == s.received;
    var i := s.received[j].index;
    if Says(s, i, failed) {
      var k :| 0 <= k < |s.received| && s.received[k] == ChunkResult(i, failed);
    }
  }

  /// When the collecting loop has ended, chunk i was reported as good exactly when some event of the run read
  /// a matching part of it or stored a reply with the manifest's digest.
  lemma ReportedGoodIff(job: Job, parts: map<nat, Bytes>, es: seq<Event>, s': State, j: nat)
    requires job.peers != [] && Run(job, Init(job, parts), es, s') && Collected(s') && j < |s'.received|
    ensures s'.received[j].index < |job.chunks|
    ensures !s'.received[j].failed <==> SettledInRun(job, Init(job, parts), es, s'.received[j].index)
  {
    InitInv(job, parts);
    RunInv(job, Init(job, parts), es, s');
    SaidIsReceived(job, s', j, true);
    SaidIsReceived(job, s', j, false);
    DecidedInRun(job, Init(job, parts), es, s', s'.received[j].index);
  }

  ghost predicate AllSettled(job: Job, s: State, es: seq<Event>)
    requires Fits(job, s)
  {
    forall i | 0 <= i < |job.chunks| :: SettledInRun(job, s, es, i)
  }

  /// So the loop sees no failure exactly when every chunk was settled.
  lemma NoFailureIff(job: Job, parts: map<nat, Bytes>, es: seq<Event>, s': State)
    requires job.peers != [] && Run(job, Init(job, parts), es, s') && Collected(s')
    ensures (forall j | 0 <= j < |s'.received| :: !s'.received[j].failed) <==> AllSettled(job, Init(job, parts), es)
  {
    if forall j | 0 <= j < |s'.received| :: !s'.received[j].failed {
      forall i | 0 <= i < |job.chunks| ensures SettledInRun(job, Init(job, parts), es, i) {
        var j := ResultOf(job, parts, es, s', i);
        ReportedGoodIff(job, parts, es, s', j);
      }
    }
    if AllSettled(job, Init(job, parts), es) {
      forall j | 0 <= j < |s'.received| ensures !s'.received[j].failed {
        ReportedGoodIff(job, parts, es, s', j);
        assert SettledInRun(job, Init(job, parts), es, s'.received[j].index);
      }
    }
  }

  lemma ResultOf(job: Job, parts: map<nat, Bytes>, es: seq<Event>, s': State, i: nat) returns (j: nat)
    requires job.peers != [] && Run(job, Init(job, parts), es, s') && Collected(s') && i < |job.chunks|
    ensures j < |s'.received| && s'.received[j].index == i
  {
    InitInv(job, parts);
    RunInv(job, Init(job, parts), es, s');
    CollectedResults(job, s');
    assert HasResult(s'.received, i);
    j :| 0 <= j < |s'.received| && s'.received[j].index == i;
  }

  // ---------------------------------------------------------------- honest peers

  /// Every part is read where it is there, and every request is answered with bytes of the chunk's digest.
  ghost predicate Honest(job: Job, es: seq<Event>) {
    && AllReadable(es)
    && forall k | 0 <= k < |es| && es[k].Fetch? && es[k].i < |job.chunks| ::
         && es[k].reply.Answer?
         && CaseAside(job.hash(es[k].reply.data), Trim(job.chunks[es[k].i].sha))
  }

  lemma HonestStep(job: Job, s: State, e: Event, i: nat)
    requires Fits(job, s) && Enabled(job, s, e) && i < |s.pcs| && Undecided(s.pcs[i]) && Honest(job, [e])
    ensures Settles(job, s, e, i) || Undecided(Apply(job, s, e).pcs[i])
  {
    assert [e][0] == e;
  }

  lemma {:induction false} HonestSettles(job: Job, s: State, es: seq<Event>, s': State, i: nat)
    requires Fits(job, s) && Run(job, s, es, s') && i < |s.pcs| && Undecided(s.pcs[i]) && Honest(job, es)
    ensures Fits(job, s') && (SettledInRun(job, s, es, i) || Undecided(s'.pcs[i]))
    decreases |es|
  {
    if es != [] {
      DecidedInRun(job, s, es, s', i);
      assert forall k | 0 <= k < |es| - 1 :: es[1..][k] == es[k + 1];
      HonestStep(job, s, es[0], i);
      if !Settles(job, s, es[0], i) {
        HonestSettles(job, Apply(job, s, es[0]), es[1..], s', i);
      }
    }
  }

  /// With readable parts and honest answers no chunk fails.
  lemma HonestRunHasNoFailure(job: Job, parts: map<nat, Bytes>, es: seq<Event>, s': State)
    requires job.peers != [] && Run(job, Init(job, parts), es, s') && Collected(s') && Honest(job, es)
    ensures forall j | 0 <= j < |s'.received| :: !s'.received[j].failed
  {
    InitInv(job, parts);
    RunInv(job, Init(job, parts), es, s');
    CollectedResults(job, s');
    forall i | 0 <= i < |job.chunks| ensures SettledInRun(job, Init(job, parts), es, i) {
      HonestSettles(job, Init(job, parts), es, s', i);
    }
    assert AllSettled(job, Init(job, parts), es);
    NoFailureIff(job, parts, es, s');
  }

  // ---------------------------------------------------------------- whose errors are counted

  function CountOf(s: State, peer: string): nat {
    if peer in s.errorCounts then s.errorCounts[peer] else 0
  }

  /// The event is a request to this peer that brought no bytes of the chunk's digest to disk.
  predicate Blames(job: Job, s: State, e: Event, peer: string) {
    && e.Fetch? && e.i < |s.pcs| && e.i < |job.chunks| && s.pcs[e.i] == Fetching(peer)
    && !(e.reply.Answer? && CaseAside(job.hash(e.reply.data), Trim(job.chunks[e.i].sha)))
  }

  function BlamedInRun(job: Job, s: State, es: seq<Event>, peer: string): nat
    requires Fits(job, s)
    decreases |es|
  {
    if es == [] || !Enabled(job, s, es[0]) then 0
    else (if Blames(job, s, es[0], peer) then 1 else 0) + BlamedInRun(job, Apply(job, s, es[0]), es[1..], peer)
  }

  /// Requests to the peer that have failed and are not counted yet
  function Owed(peer: string): Pc -> nat {
    (pc: Pc) => if pc == Failing(peer) then 1 else 0
  }

  lemma BlameStep(job: Job, s: State, e: Event, peer: string)
    requires Fits(job, s) && Enabled(job, s, e)
    ensures var s' := Apply(job, s, e);
            CountOf(s', peer) + Sum(Owed(peer), s'.pcs)
            == CountOf(s, peer) + Sum(Owed(peer), s.pcs) + if Blames(job, s, e, peer) then 1 else 0
  {
    match Mover(e) {
      case Some(i) =>
        StepMoves(job, s, e);
        SumUpdate(Owed(peer), s.pcs, i, Apply(job, s, e).pcs[i]);
        MoverCounts(job, s, e, i, peer);
      case None =>
    }
  }

  lemma MoverCounts(job: Job, s: State, e: Event, i: nat, peer: string)
    requires Fits(job, s) && Enabled(job, s, e) && Mover(e) == Some(i) && i < |s.pcs|
    ensures var s' := Apply(job, s, e);
            CountOf(s', peer) + Owed(peer)(s'.pcs[i])
            == CountOf(s, peer) + Owed(peer)(s.pcs[i]) + if Blames(job, s, e, peer) then 1 else 0
  {
  }

  /// Over every run from the start: the errors counted for a peer, with those still to be counted, are the
  /// requests to that peer that failed.
  lemma {:induction false} ErrorsAreBlames(job: Job, s: State, es: seq<Event>, s': State, peer: string)
    requires Fits(job, s) && Run(job, s, es, s')
    ensures Fits(job, s')
    ensures CountOf(s', peer) + Sum(Owed(peer), s'.pcs)
         == CountOf(s, peer) + Sum(Owed(peer), s.pcs) + BlamedInRun(job, s, es, peer)
    decreases |es|
  {
    if es != [] {
      BlameStep(job, s, es[0], peer);
      ErrorsAreBlames(job, Apply(job, s, es[0]), es[1..], s', peer);
    }
  }

  /// At the end of a run exactly the failed requests to a peer are counted for it.
  lemma CollectedErrors(job: Job, parts: map<nat, Bytes>, es: seq<Event>, s': State, peer: string)
    requires job.peers != [] && Run(job, Init(job, parts), es, s') && Collected(s')
    ensures CountOf(s', peer) == BlamedInRun(job, Init(job, parts), es, peer)
  {
    InitInv(job, parts);
    RunInv(job, Init(job, parts), es, s');
    CollectedResults(job, s');
    ErrorsAreBlames(job, Init(job, parts), es, s', peer);
    SumZero(Owed(peer), s'.pcs);
    SumZero(Owed(peer), Init(job, parts).pcs);
  }

  // ---------------------------------------------------------------- which peer is asked

  predicate LeastBlamed(job: Job, s: State, k: int) {
    0 <= k < |job.peers| && forall j | 0 <= j < |job.peers| :: CountOf(s, job.peers[k]) <= CountOf(s, job.peers[j])
  }

  /// A worker asks the round-robin peer of its chunk when no peer has fewer errors, else the first peer in the
  /// list that has the fewest.
  lemma AsksLeastBlamed(job: Job, s: State, i: nat) returns (k: nat)
    requires Fits(job, s) && Enabled(job, s, Pick(i))
    ensures LeastBlamed(job, s, k) && Apply(job, s, Pick(i)).pcs[i] == Fetching(job.peers[k])
    ensures if LeastBlamed(job, s, i % |job.peers|) then k == i % |job.peers|
            else forall j | 0 <= j < k :: !LeastBlamed(job, s, j)
  {
    k := PickIndex(s.errorCounts, i, job.peers);
    assert forall j | 0 <= j < |job.peers| :: CountOf(s, job.peers[j]) == Errors(s.errorCounts, job.peers[j]);
    assert forall j | 0 <= j < |job.peers| :: LeastBlamed(job, s, j) <==> Fewest(s.errorCounts, job.peers, j);
  }
}
