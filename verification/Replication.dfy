/// The replication queue (src/app/p2p_replication.go): a bounded channel of jobs, workers, gauges, a
/// cooldown per peer and a dedup map. Any number of goroutines enqueue. Every locked region and every
/// channel operation is one step; clocks are read before the lock and may be seen in any order.
module Replication {
  import opened Text
  import opened Clock
  import opened Counting
  import T = TtlMap

  const QUEUE_SIZE := 64
  const WORKERS := 2
  const COOLDOWN := 20 * SECOND
  const DEDUP_TTL := 24 * HOUR

  /// The zero time.Time, which no clock reading equals
  const ZERO_TIME := 0

  datatype Job = Job(artifact: string, checksum: string, peer: string, source: string)

  function PeerKey(lower: char -> char, job: Job): string {
    ToLower(lower, Trim(job.peer))
  }

  /// dedupKey
  function DedupKey(lower: char -> char, job: Job): string {
    ToLower(lower, Trim(job.peer)) + "|" + ToLower(lower, Trim(job.artifact)) + "|" + ToLower(lower, Trim(job.checksum))
  }

  /// Where a worker is
  datatype Pc =
    | Idle
    | Took(job: Job)        // received, gauges not yet updated
    | Counted(job: Job)     // about to pass the cooldown gate
    | Passed(job: Job)      // replicating
    | Succeeded(job: Job)   // about to mark the job as replicated
    | Finishing             // about to decrement ActiveReplications

  /// A job that passed the gate, and the clock it passed with
  datatype Attempt = Attempt(job: Job, time: int)

  /// A job that passed the duplicate check, and how much of the dedup log there was then
  datatype Admission = Admission(job: Job, now: int, seen: nat)

  datatype State = State(
    admitted: seq<Job>,              // passed the duplicate check, not yet offered to the channel
    queue: seq<Job>,                 // the channel
    uncounted: nat,                  // sent, QueuedReplications not yet incremented
    workers: seq<Pc>,
    queuedGauge: int,                // metrics.QueuedReplications
    activeGauge: int,                // metrics.ActiveReplications
    peerLastAttempt: map<string, int>,
    dedup: map<string, int>,
    // history
    skipped: nat,                    // decrements of QueuedReplications skipped because it was zero
    attempts: seq<Attempt>,
    dedupLog: seq<T.Op>,
    admissions: seq<Admission>)

  datatype Event =
    | Check(job: Job, now: int)      // enqueueReplicationJob's locked region
    | Offer(i: nat)                  // its select
    | CountQueued                    // its increment
    | Receive(w: nat)
    | CountActive(w: nat)            // replicationWorker's locked region
    | Gate(w: nat, now: int)         // processReplicationJob's first locked region
    | Replicate(w: nat, ok: bool)
    | MarkReplicated(w: nat, now: int)
    | Finish(w: nat)                 // its last locked region

  function Init(workers: nat): State {
    State([], [], 0, seq(workers, _ => Idle), 0, 0, map[], map[], 0, [], [], [])
  }

  /// wasRecentlyReplicatedLocked
  predicate RecentlyReplicated(lower: char -> char, dedup: map<string, int>, job: Job, now: int) {
    Trim(job.checksum) != "" && T.Recent(dedup, DedupKey(lower, job), now, DEDUP_TTL)
  }

  function LastAttempt(s: State, peer: string): int {
    if peer in s.peerLastAttempt then s.peerLastAttempt[peer] else ZERO_TIME
  }

  predicate CoolingDown(s: State, peer: string, now: int) {
    LastAttempt(s, peer) != ZERO_TIME && now - LastAttempt(s, peer) < COOLDOWN
  }

  function Decremented(gauge: int): int {
    if gauge > 0 then gauge - 1 else gauge
  }

  predicate Enabled(s: State, e: Event) {
    match e
    case Check(_, _) => true
    case Offer(i) => i < |s.admitted|
    case CountQueued => s.uncounted > 0
    case Receive(w) => w < |s.workers| && s.workers[w] == Idle && s.queue != []
    case CountActive(w) => w < |s.workers| && s.workers[w].Took?
    case Gate(w, now) => w < |s.workers| && s.workers[w].Counted? && now != ZERO_TIME
    case Replicate(w, _) => w < |s.workers| && s.workers[w].Passed?
    case MarkReplicated(w, _) => w < |s.workers| && s.workers[w].Succeeded?
    case Finish(w) => w < |s.workers| && s.workers[w] == Finishing
  }

  function Apply(lower: char -> char, s: State, e: Event): State
    requires Enabled(s, e)
  {
    match e
    case Check(job, now) =>
      var pruned := s.(dedup := T.Pruned(s.dedup, now, DEDUP_TTL), dedupLog := s.dedupLog + [T.Look(now)]);
      if RecentlyReplicated(lower, pruned.dedup, job, now) then pruned
      else pruned.(admitted := s.admitted + [job], admissions := s.admissions + [Admission(job, now, |s.dedupLog|)])
    case Offer(i) =>
      var offered := s.(admitted := s.admitted[..i] + s.admitted[i + 1..]);
      if |s.queue| < QUEUE_SIZE then offered.(queue := s.queue + [s.admitted[i]], uncounted := s.uncounted + 1)
      else offered
    case CountQueued => s.(uncounted := s.uncounted - 1, queuedGauge := s.queuedGauge + 1)
    case Receive(w) => s.(workers := s.workers[w := Took(s.queue[0])], queue := s.queue[1..])
    case CountActive(w) =>
      s.(workers := s.workers[w := Counted(s.workers[w].job)],
         queuedGauge := Decremented(s.queuedGauge),
         skipped := s.skipped + (if s.queuedGauge > 0 then 0 else 1),
         activeGauge := s.activeGauge + 1)
    case Gate(w, now) =>
      var peer := PeerKey(lower, s.workers[w].job);
      if CoolingDown(s, peer, now) then s.(workers := s.workers[w := Idle], activeGauge := Decremented(s.activeGauge))
      else
        s.(workers := s.workers[w := Passed(s.workers[w].job)], peerLastAttempt := s.peerLastAttempt[peer := now],
           attempts := s.attempts + [Attempt(s.workers[w].job, now)])
    case Replicate(w, ok) => s.(workers := s.workers[w := if ok then Succeeded(s.workers[w].job) else Finishing])
    case MarkReplicated(w, now) =>
      var job := s.workers[w].job;
      var next := s.(workers := s.workers[w := Finishing]);
      if Trim(job.checksum) == "" then next
      else
        next.(dedup := T.Pruned(s.dedup, now, DEDUP_TTL)[DedupKey(lower, job) := now],
              dedupLog := s.dedupLog + [T.Mark(DedupKey(lower, job), now)])
    case Finish(w) => s.(workers := s.workers[w := Idle], activeGauge := Decremented(s.activeGauge))
  }

  ghost predicate Run(lower: char -> char, s: State, es: seq<Event>, s': State)
    decreases |es|
  {
    if es == [] then s' == s else Enabled(s, es[0]) && Run(lower, Apply(lower, s, es[0]), es[1..], s')
  }

  // ---------------------------------------------------------------- gauges

  /// Between the worker's increment and its decrement
  function Active(pc: Pc): nat {
    if pc.Idle? || pc.Took? then 0 else 1
  }

  /// Between the receive and the worker's decrement of the queue gauge
  function Unsettled(pc: Pc): nat {
    if pc.Took? then 1 else 0
  }

  /// ActiveReplications counts the workers in flight. The queue gauge and the increments still to come
  /// account for the jobs in the channel, the decrements still to come, and the skipped decrements.
  predicate Gauged(s: State) {
    && s.activeGauge == Sum(Active, s.workers)
    && s.queuedGauge + s.uncounted == |s.queue| + Sum(Unsettled, s.workers) + s.skipped
    && s.queuedGauge >= 0
    && |s.queue| <= QUEUE_SIZE
  }

  lemma WorkerStep(s: State, w: nat, pc: Pc)
    requires w < |s.workers|
    ensures Sum(Active, s.workers[w := pc]) + Active(s.workers[w]) == Sum(Active, s.workers) + Active(pc)
    ensures Sum(Unsettled, s.workers[w := pc]) + Unsettled(s.workers[w]) == Sum(Unsettled, s.workers) + Unsettled(pc)
    ensures Sum(Active, s.workers) >= Active(s.workers[w])
  {
    SumUpdate(Active, s.workers, w, pc);
    SumUpdate(Unsettled, s.workers, w, pc);
    SumAtLeast(Active, s.workers, w);
  }

  lemma StepGauged(lower: char -> char, s: State, e: Event)
    requires Gauged(s) && Enabled(s, e)
    ensures Gauged(Apply(lower, s, e)) && |Apply(lower, s, e).workers| == |s.workers|
    ensures Apply(lower, s, e).skipped >= s.skipped
  {
    if !e.Check? && !e.Offer? && !e.CountQueued? {
      WorkerGauged(lower, s, e);
    }
  }

  /// A worker's step
  lemma WorkerGauged(lower: char -> char, s: State, e: Event)
    requires Gauged(s) && Enabled(s, e) && !e.Check? && !e.Offer? && !e.CountQueued?
    ensures Gauged(Apply(lower, s, e)) && |Apply(lower, s, e).workers| == |s.workers|
    ensures Apply(lower, s, e).skipped >= s.skipped
  {
    var pc := Apply(lower, s, e).workers[e.w];
    WorkerStep(s, e.w, pc);
    assert Apply(lower, s, e).workers == s.workers[e.w := pc];
  }

  lemma InitGauged(workers: nat)
    ensures Gauged(Init(workers))
  {
    SumRepeat(Active, workers, Idle);
    SumRepeat(Unsettled, workers, Idle);
  }

  lemma {:induction false} RunGauged(lower: char -> char, s: State, es: seq<Event>, s': State)
    requires Gauged(s) && Run(lower, s, es, s')
    ensures Gauged(s') && |s'.workers| == |s.workers| && s'.skipped >= s.skipped
    decreases |es|
  {
    if es != [] {
      StepGauged(lower, s, es[0]);
      RunGauged(lower, Apply(lower, s, es[0]), es[1..], s');
    }
  }

  /// In every state of every run: ActiveReplications is exact, so at most the number of workers; and
  /// the queue gauge, once the pending increments and decrements are counted, is the length of the
  /// channel plus the decrements skipped so far. It never reports too little.
  lemma GaugesAccount(lower: char -> char, es: seq<Event>, s: State)
    requires Run(lower, Init(WORKERS), es, s)
    ensures s.activeGauge == Sum(Active, s.workers) <= 2 && |s.queue| <= 64
    ensures s.queuedGauge + s.uncounted == |s.queue| + Sum(Unsettled, s.workers) + s.skipped
    ensures s.queuedGauge + s.uncounted >= |s.queue| + Sum(Unsettled, s.workers)
  {
    InitGauged(WORKERS);
    RunGauged(lower, Init(WORKERS), es, s);
    SumAtMostLength(Active, s.workers);
  }

  predicate Quiet(s: State) {
    s.uncounted == 0 && forall w | 0 <= w < |s.workers| :: s.workers[w] == Idle
  }

  /// At rest the queue gauge is the length of the channel exactly when no decrement was ever skipped.
  lemma QueueGaugeExactIff(lower: char -> char, workers: nat, es: seq<Event>, s: State)
    requires Run(lower, Init(workers), es, s) && Quiet(s)
    ensures s.activeGauge == 0
    ensures s.queuedGauge == |s.queue| <==> s.skipped == 0
  {
    InitGauged(workers);
    RunGauged(lower, Init(workers), es, s);
    SumZero(Active, s.workers);
    SumZero(Unsettled, s.workers);
  }

  /// A run in which only the first worker has something to do: its place, the jobs in flight, the queue
  /// gauge, and a duplicate check at time 1
  predicate Snapshot(s: State, admitted: seq<Job>, queue: seq<Job>, uncounted: nat, pc: Pc, gauge: int) {
    && s.admitted == admitted && s.queue == queue && s.uncounted == uncounted && s.queuedGauge == gauge
    && s.workers == [pc, Idle] && s.dedup == map[] && s.peerLastAttempt == map[] && s.dedupLog == [T.Look(1)]
  }

  lemma RunOfTwo(lower: char -> char, s0: State, e: Event, f: Event, s1: State, s2: State)
    requires Enabled(s0, e) && s1 == Apply(lower, s0, e) && Enabled(s1, f) && s2 == Apply(lower, s1, f)
    ensures Run(lower, s0, [e, f], s2)
  {
    assert [e, f][1..] == [f] && [f][1..] == [];
    assert Run(lower, s1, [f], s2);
  }

  lemma RunOfFour(lower: char -> char, s0: State, es: seq<Event>, s1: State, s2: State, s3: State, s4: State)
    requires |es| == 4
    requires Enabled(s0, es[0]) && s1 == Apply(lower, s0, es[0])
    requires Enabled(s1, es[1]) && s2 == Apply(lower, s1, es[1])
    requires Enabled(s2, es[2]) && s3 == Apply(lower, s2, es[2])
    requires Enabled(s3, es[3]) && s4 == Apply(lower, s3, es[3])
    ensures Run(lower, s0, es, s4)
  {
    RunOfTwo(lower, s0, es[0], es[1], s1, s2);
    RunOfTwo(lower, s2, es[2], es[3], s3, s4);
    RunConcat(lower, s0, [es[0], es[1]], s2, [es[2], es[3]], s4);
    assert es == [es[0], es[1]] + [es[2], es[3]];
  }

  /// A worker takes the job before its enqueuer has counted it.
  lemma TakenBeforeCounted(lower: char -> char, job: Job) returns (s: State)
    ensures Run(lower, Init(WORKERS), [Check(job, 1), Offer(0), Receive(0), CountActive(0)], s)
    ensures Snapshot(s, [], [], 1, Counted(job), 0)
  {
    var es := [Check(job, 1), Offer(0), Receive(0), CountActive(0)];
    var s1 := Apply(lower, Init(WORKERS), es[0]);
    assert Snapshot(s1, [job], [], 0, Idle, 0);
    var s2 := Apply(lower, s1, es[1]);
    assert Snapshot(s2, [], [job], 1, Idle, 0);
    var s3 := Apply(lower, s2, es[2]);
    assert Snapshot(s3, [], [], 1, Took(job), 0);
    s := Apply(lower, s3, es[3]);
    RunOfFour(lower, Init(WORKERS), es, s1, s2, s3, s);
  }

  lemma CountedTooLate(lower: char -> char, job: Job, s0: State) returns (s: State)
    requires Snapshot(s0, [], [], 1, Counted(job), 0)
    ensures Run(lower, s0, [CountQueued, Gate(0, 1), Replicate(0, false), Finish(0)], s)
    ensures Quiet(s) && s.queue == [] && s.queuedGauge == 1
  {
    var es := [CountQueued, Gate(0, 1), Replicate(0, false), Finish(0)];
    var s1 := Apply(lower, s0, es[0]);
    assert Snapshot(s1, [], [], 0, Counted(job), 1);
    var s2 := Apply(lower, s1, es[1]);
    assert s2.workers == [Passed(job), Idle] && s2.queue == [] && s2.uncounted == 0 && s2.queuedGauge == 1;
    var s3 := Apply(lower, s2, es[2]);
    assert s3.workers == [Finishing, Idle] && s3.queue == [] && s3.uncounted == 0 && s3.queuedGauge == 1;
    s := Apply(lower, s3, es[3]);
    RunOfFour(lower, s0, es, s1, s2, s3, s);
  }

  /// The gauge can stay too high for good: a worker's decrement comes before the increment it belongs
  /// to and is skipped.
  lemma QueueGaugeCanDrift(lower: char -> char, job: Job) returns (es: seq<Event>, s: State)
    ensures Run(lower, Init(WORKERS), es, s) && Quiet(s) && s.queue == [] && s.queuedGauge == 1
  {
    var mid := TakenBeforeCounted(lower, job);
    s := CountedTooLate(lower, job, mid);
    var first := [Check(job, 1), Offer(0), Receive(0), CountActive(0)];
    var second := [CountQueued, Gate(0, 1), Replicate(0, false), Finish(0)];
    RunConcat(lower, Init(WORKERS), first, mid, second, s);
    es := first + second;
  }

  lemma {:induction false} RunConcat(
    lower: char -> char, s: State, es: seq<Event>, m: State, fs: seq<Event>, end: State)
    requires Run(lower, s, es, m) && Run(lower, m, fs, end)
    ensures Run(lower, s, es + fs, end)
    decreases |es|
  {
    if es == [] {
      assert es + fs == fs;
    } else {
      var all := es + fs;
      assert all[0] == es[0] && all[1..] == es[1..] + fs;
      var next := Apply(lower, s, es[0]);
      RunConcat(lower, next, es[1..], m, fs, end);
      assert Run(lower, next, all[1..], end);
    }
  }

  // ---------------------------------------------------------------- cooldown

  predicate SameKey(lower: char -> char, a: Attempt, b: Attempt) {
    PeerKey(lower, a.job) == PeerKey(lower, b.job)
  }

  predicate Apart(lower: char -> char, attempts: seq<Attempt>) {
    forall i, j | 0 <= i < j < |attempts| && SameKey(lower, attempts[i], attempts[j]) ::
      attempts[j].time - attempts[i].time >= COOLDOWN
  }

  /// The map holds a time for the attempt's key that is not before it.
  predicate Remembered(lower: char -> char, last: map<string, int>, a: Attempt) {
    PeerKey(lower, a.job) in last && a.time <= last[PeerKey(lower, a.job)]
  }

  predicate IsAttempt(lower: char -> char, attempts: seq<Attempt>, key: string, time: int) {
    exists i | 0 <= i < |attempts| :: PeerKey(lower, attempts[i].job) == key && attempts[i].time == time
  }

  /// The map holds the last attempt of every key.
  predicate HoldsLast(lower: char -> char, attempts: seq<Attempt>, last: map<string, int>) {
    && (forall i | 0 <= i < |attempts| :: Remembered(lower, last, attempts[i]))
    && (forall p | p in last :: last[p] != ZERO_TIME && IsAttempt(lower, attempts, p, last[p]))
  }

  ghost predicate Spaced(lower: char -> char, s: State) {
    Apart(lower, s.attempts) && HoldsLast(lower, s.attempts, s.peerLastAttempt)
  }

  lemma ApartAppend(lower: char -> char, attempts: seq<Attempt>, a: Attempt)
    requires Apart(lower, attempts)
    requires forall i | 0 <= i < |attempts| && SameKey(lower, attempts[i], a) :: a.time - attempts[i].time >= COOLDOWN
    ensures Apart(lower, attempts + [a])
  {
  }

  lemma HoldsLastAppend(lower: char -> char, attempts: seq<Attempt>, last: map<string, int>, a: Attempt)
    requires HoldsLast(lower, attempts, last) && a.time != ZERO_TIME
    requires PeerKey(lower, a.job) in last ==> last[PeerKey(lower, a.job)] <= a.time
    ensures HoldsLast(lower, attempts + [a], last[PeerKey(lower, a.job) := a.time])
  {
    var more, last' := attempts + [a], last[PeerKey(lower, a.job) := a.time];
    forall p | p in last' ensures IsAttempt(lower, more, p, last'[p]) {
      if p == PeerKey(lower, a.job) {
        assert more[|attempts|] == a;
      } else {
        assert IsAttempt(lower, attempts, p, last[p]);
        var i :| 0 <= i < |attempts| && PeerKey(lower, attempts[i].job) == p && attempts[i].time == last[p];
        assert more[i] == attempts[i];
      }
    }
    forall i | 0 <= i < |more| ensures Remembered(lower, last', more[i]) {
      assert i < |attempts| ==> Remembered(lower, last, attempts[i]);
    }
  }

  lemma GateSpaced(lower: char -> char, s: State, w: nat, now: int)
    requires Spaced(lower, s) && Enabled(s, Gate(w, now))
    ensures Spaced(lower, Apply(lower, s, Gate(w, now)))
  {
    var a := Attempt(s.workers[w].job, now);
    if !CoolingDown(s, PeerKey(lower, a.job), now) {
      HoldsLastAppend(lower, s.attempts, s.peerLastAttempt, a);
      forall i | 0 <= i < |s.attempts| && SameKey(lower, s.attempts[i], a)
        ensures now - s.attempts[i].time >= COOLDOWN {
        assert Remembered(lower, s.peerLastAttempt, s.attempts[i]);
      }
      ApartAppend(lower, s.attempts, a);
    }
  }

  lemma StepSpaced(lower: char -> char, s: State, e: Event)
    requires Spaced(lower, s) && Enabled(s, e)
    ensures Spaced(lower, Apply(lower, s, e))
  {
    match e {
      case Gate(w, now) => GateSpaced(lower, s, w, now);
      case _ =>
        var s' := Apply(lower, s, e);
        assert s'.attempts == s.attempts && s'.peerLastAttempt == s.peerLastAttempt;
    }
  }

  lemma {:induction false} RunSpaced(lower: char -> char, s: State, es: seq<Event>, s': State)
    requires Spaced(lower, s) && Run(lower, s, es, s')
    ensures Spaced(lower, s')
    decreases |es|
  {
    if es != [] {
      StepSpaced(lower, s, es[0]);
      RunSpaced(lower, Apply(lower, s, es[0]), es[1..], s');
    }
  }

  /// Over whole runs, for any number of workers and any order of the clock readings: two jobs that passed the
  /// gate, for the same peer up to surrounding blanks and case, did so with clocks at least 20 seconds apart.
  lemma CooldownHolds(lower: char -> char, workers: nat, es: seq<Event>, s: State, i: nat, j: nat)
    requires Run(lower, Init(workers), es, s)
    requires i < j < |s.attempts| && Agree(lower, s.attempts[i].job.peer, s.attempts[j].job.peer)
    ensures s.attempts[j].time - s.attempts[i].time >= 20 * SECOND
  {
    RunSpaced(lower, Init(workers), es, s);
    assert Apart(lower, s.attempts);
    AgreeIff(lower, s.attempts[i].job.peer, s.attempts[j].job.peer);
  }

  /// Every earlier attempt for the job's peer is at least 20 seconds back.
  predicate Rested(lower: char -> char, attempts: seq<Attempt>, job: Job, now: int) {
    forall i | 0 <= i < |attempts| && Agree(lower, attempts[i].job.peer, job.peer) ::
      now - attempts[i].time >= 20 * SECOND
  }

  lemma CoolingIff(lower: char -> char, s: State, job: Job, now: int)
    requires Spaced(lower, s)
    ensures !CoolingDown(s, PeerKey(lower, job), now) <==> Rested(lower, s.attempts, job, now)
  {
    var key := PeerKey(lower, job);
    forall i | 0 <= i < |s.attempts|
      ensures Agree(lower, s.attempts[i].job.peer, job.peer) <==> PeerKey(lower, s.attempts[i].job) == key {
      AgreeIff(lower, s.attempts[i].job.peer, job.peer);
    }
    if key in s.peerLastAttempt {
      assert IsAttempt(lower, s.attempts, key, s.peerLastAttempt[key]);
    }
    forall i | 0 <= i < |s.attempts| ensures Remembered(lower, s.peerLastAttempt, s.attempts[i]) {
    }
  }

  /// In every reachable state a counted job passes the gate exactly when every earlier attempt for its peer,
  /// up to surrounding blanks and case, is at least 20 seconds back; so with no such attempt it always passes.
  lemma GatePassesIff(lower: char -> char, workers: nat, es: seq<Event>, s: State, w: nat, now: int)
    requires Run(lower, Init(workers), es, s) && Enabled(s, Gate(w, now))
    ensures var job, s' := s.workers[w].job, Apply(lower, s, Gate(w, now));
            if Rested(lower, s.attempts, job, now)
            then s'.workers[w] == Passed(job) && s'.attempts == s.attempts + [Attempt(job, now)]
            else s'.workers[w] == Idle && s'.attempts == s.attempts
  {
    RunSpaced(lower, Init(workers), es, s);
    CoolingIff(lower, s, s.workers[w].job, now);
  }

  // ---------------------------------------------------------------- duplicates

  /// The dedup map is its pruned log, and every admission found its key not recent in it.
  ghost predicate Deduped(lower: char -> char, s: State) {
    && s.dedup == T.Kept(s.dedupLog, DEDUP_TTL)
    && forall i | 0 <= i < |s.admissions| ::
         var a := s.admissions[i];
         a.seen <= |s.dedupLog| && !RecentlyReplicated(lower, T.Kept(s.dedupLog[..a.seen], DEDUP_TTL), a.job, a.now)
  }

  lemma LogAppend(s: State, op: T.Op)
    requires s.dedup == T.Kept(s.dedupLog, DEDUP_TTL)
    ensures T.Apply(s.dedup, op, DEDUP_TTL) == T.Kept(s.dedupLog + [op], DEDUP_TTL)
    ensures forall n | 0 <= n <= |s.dedupLog| :: (s.dedupLog + [op])[..n] == s.dedupLog[..n]
    ensures s.dedupLog[..|s.dedupLog|] == s.dedupLog
  {
    assert (s.dedupLog + [op])[..|s.dedupLog|] == s.dedupLog;
  }

  lemma CheckDeduped(lower: char -> char, s: State, job: Job, now: int)
    requires Deduped(lower, s)
    ensures Deduped(lower, Apply(lower, s, Check(job, now)))
  {
    LogAppend(s, T.Look(now));
    T.LookKeepsAnswer(s.dedup, DedupKey(lower, job), now, DEDUP_TTL);
  }

  lemma MarkDeduped(lower: char -> char, s: State, key: string, now: int, s': State)
    requires Deduped(lower, s) && s'.admissions == s.admissions
    requires || (s'.dedup == s.dedup && s'.dedupLog == s.dedupLog)
             || (s'.dedup == T.Apply(s.dedup, T.Mark(key, now), DEDUP_TTL)
                 && s'.dedupLog == s.dedupLog + [T.Mark(key, now)])
    ensures Deduped(lower, s')
  {
    LogAppend(s, T.Mark(key, now));
  }

  lemma StepDeduped(lower: char -> char, s: State, e: Event)
    requires Deduped(lower, s) && Enabled(s, e)
    ensures Deduped(lower, Apply(lower, s, e))
  {
    var s' := Apply(lower, s, e);
    match e {
      case Check(job, now) =>
        CheckDeduped(lower, s, job, now);
      case MarkReplicated(w, now) =>
        MarkDeduped(lower, s, DedupKey(lower, s.workers[w].job), now, s');
      case _ =>
        assert s'.dedup == s.dedup && s'.dedupLog == s.dedupLog && s'.admissions == s.admissions;
    }
  }

  lemma {:induction false} RunDeduped(lower: char -> char, s: State, es: seq<Event>, s': State)
    requires Deduped(lower, s) && Run(lower, s, es, s')
    ensures Deduped(lower, s')
    decreases |es|
  {
    if es != [] {
      StepDeduped(lower, s, es[0]);
      RunDeduped(lower, Apply(lower, s, es[0]), es[1..], s');
    }
  }

  /// The pruned map answers every query as the unpruned log of all marks would, exactly when no
  /// operation since the key's last mark saw a clock 24 hours past it while the query does not.
  lemma DedupAgreesIff(lower: char -> char, workers: nat, es: seq<Event>, s: State, job: Job, now: int)
    requires Run(lower, Init(workers), es, s) && Trim(job.checksum) != ""
    ensures var k, marks := DedupKey(lower, job), T.Marks(s.dedupLog);
            (RecentlyReplicated(lower, s.dedup, job, now) <==> T.Recent(marks, k, now, DEDUP_TTL))
            <==> !(k in marks && now - marks[k] < DEDUP_TTL <= T.LatestSince(s.dedupLog, k, marks[k]) - marks[k])
  {
    RunDeduped(lower, Init(workers), es, s);
    T.PruningAgreesIff(s.dedupLog, DedupKey(lower, job), now, DEDUP_TTL);
  }

  /// When the clock of an admission is not behind the operations before it, the job's key has not been
  /// marked in the 24 hours before.
  lemma NoDuplicateAdmitted(lower: char -> char, workers: nat, es: seq<Event>, s: State, i: nat)
    requires Run(lower, Init(workers), es, s) && i < |s.admissions| && Trim(s.admissions[i].job.checksum) != ""
    requires var a := s.admissions[i]; a.seen <= |s.dedupLog| ==> T.NotAfter(s.dedupLog[..a.seen], a.now)
    ensures var a := s.admissions[i];
            && a.seen <= |s.dedupLog|
            && !T.Recent(T.Marks(s.dedupLog[..a.seen]), DedupKey(lower, a.job), a.now, 24 * HOUR)
  {
    RunDeduped(lower, Init(workers), es, s);
    var a := s.admissions[i];
    T.PruningIsInvisible(s.dedupLog[..a.seen], DedupKey(lower, a.job), a.now, DEDUP_TTL);
  }

  lemma MarkedOnce(lower: char -> char, job: Job, s0: State) returns (s: State)
    requires Snapshot(s0, [], [], 1, Counted(job), 0) && Trim(job.checksum) != ""
    ensures Run(lower, s0, [Gate(0, 1), Replicate(0, true), MarkReplicated(0, 1), Finish(0)], s)
    ensures s.dedup == map[DedupKey(lower, job) := 1] && s.dedupLog == [T.Look(1), T.Mark(DedupKey(lower, job), 1)]
  {
    var es := [Gate(0, 1), Replicate(0, true), MarkReplicated(0, 1), Finish(0)];
    var s1 := Apply(lower, s0, es[0]);
    assert s1.workers == [Passed(job), Idle] && s1.dedup == map[] && s1.dedupLog == [T.Look(1)];
    var s2 := Apply(lower, s1, es[1]);
    assert s2.workers == [Succeeded(job), Idle];
    var s3 := Apply(lower, s2, es[2]);
    assert s3.workers == [Finishing, Idle];
    s := Apply(lower, s3, es[3]);
    RunOfFour(lower, s0, es, s1, s2, s3, s);
  }

  /// A check with a clock a day after the mark forgets it; the next check, a moment behind, admits the job.
  lemma ForgottenThenAdmitted(lower: char -> char, job: Job, s0: State) returns (s: State)
    requires s0.dedup == map[DedupKey(lower, job) := 1] && s0.dedupLog == [T.Look(1), T.Mark(DedupKey(lower, job), 1)]
    requires Trim(job.checksum) != ""
    ensures Run(lower, s0, [Check(job, 1 + DEDUP_TTL), Check(job, DEDUP_TTL)], s)
    ensures s.dedupLog == s0.dedupLog + [T.Look(1 + DEDUP_TTL), T.Look(DEDUP_TTL)]
    ensures s.admissions == s0.admissions + [Admission(job, 1 + DEDUP_TTL, 2), Admission(job, DEDUP_TTL, 3)]
  {
    var s1 := Apply(lower, s0, Check(job, 1 + DEDUP_TTL));
    assert s1.dedup == map[] && s1.dedupLog == s0.dedupLog + [T.Look(1 + DEDUP_TTL)];
    s := Apply(lower, s1, Check(job, DEDUP_TTL));
    RunOfTwo(lower, s0, Check(job, 1 + DEDUP_TTL), Check(job, DEDUP_TTL), s1, s);
  }

  lemma StillRecent(log: seq<T.Op>, key: string)
    requires log == [T.Look(1), T.Mark(key, 1), T.Look(1 + DEDUP_TTL)]
    ensures T.Recent(T.Marks(log), key, DEDUP_TTL, DEDUP_TTL)
  {
    assert log[..2] == [T.Look(1), T.Mark(key, 1)] && log[..2][..1] == [T.Look(1)] && [T.Look(1)][..0] == [];
    assert T.Marks(log[..2]) == T.Marks([T.Look(1)])[key := 1];
  }

  /// Without that, a job can be admitted within the day: the clock is read before the lock is taken, so two
  /// checks may come in the other order.
  lemma RecentJobCanBeAdmitted(lower: char -> char, job: Job) returns (es: seq<Event>, s: State)
    requires Trim(job.checksum) != ""
    ensures Run(lower, Init(WORKERS), es, s) && s.admissions != []
    ensures var a := s.admissions[|s.admissions| - 1];
            && a.job == job && a.seen <= |s.dedupLog|
            && T.Recent(T.Marks(s.dedupLog[..a.seen]), DedupKey(lower, job), a.now, DEDUP_TTL)
  {
    var s1 := TakenBeforeCounted(lower, job);
    var s2 := MarkedOnce(lower, job, s1);
    s := ForgottenThenAdmitted(lower, job, s2);
    var first := [Check(job, 1), Offer(0), Receive(0), CountActive(0)];
    var second := [Gate(0, 1), Replicate(0, true), MarkReplicated(0, 1), Finish(0)];
    var third := [Check(job, 1 + DEDUP_TTL), Check(job, DEDUP_TTL)];
    RunConcat(lower, Init(WORKERS), first, s1, second, s2);
    RunConcat(lower, Init(WORKERS), first + second, s2, third, s);
    es := first + second + third;
    assert s.dedupLog[..3] == [T.Look(1), T.Mark(DedupKey(lower, job), 1), T.Look(1 + DEDUP_TTL)];
    StillRecent(s.dedupLog[..3], DedupKey(lower, job));
  }

  // ---------------------------------------------------------------- all of it

  ghost predicate Inv(lower: char -> char, s: State) {
    Gauged(s) && Spaced(lower, s) && Deduped(lower, s)
  }

  lemma InitInv(lower: char -> char, workers: nat)
    ensures Inv(lower, Init(workers))
  {
    InitGauged(workers);
  }

  lemma StepInv(lower: char -> char, s: State, e: Event)
    requires Inv(lower, s) && Enabled(s, e)
    ensures Inv(lower, Apply(lower, s, e))
  {
    StepGauged(lower, s, e);
    StepSpaced(lower, s, e);
    StepDeduped(lower, s, e);
  }

  /// A worker between its increment and its decrement is counted, so the gauge is positive.
  lemma ActiveIsCounted(lower: char -> char, s: State, w: nat)
    requires Inv(lower, s) && w < |s.workers|
    ensures Active(s.workers[w]) <= s.activeGauge <= |s.workers|
    ensures s.queuedGauge >= 0
  {
    SumAtLeast(Active, s.workers, w);
    SumAtMostLength(Active, s.workers);
  }

  lemma CountOutcome(lower: char -> char, s: State, w: nat)
    requires Inv(lower, s) && Enabled(s, CountActive(w))
    ensures Inv(lower, Apply(lower, s, CountActive(w)))
    ensures s.activeGauge + 1 <= |s.workers| && s.activeGauge >= 0 && s.queuedGauge >= 0
  {
    StepInv(lower, s, CountActive(w));
    ActiveIsCounted(lower, s, w);
    ActiveIsCounted(lower, Apply(lower, s, CountActive(w)), w);
  }

  /// The duplicate check answers as the log of all marks would, if its clock is not behind theirs.
  lemma CheckAnswersAsLog(lower: char -> char, s: State, job: Job, now: int)
    requires Inv(lower, s) && Trim(job.checksum) != "" && T.NotAfter(s.dedupLog, now)
    ensures RecentlyReplicated(lower, s.dedup, job, now)
       <==> T.Recent(T.Marks(s.dedupLog), DedupKey(lower, job), now, DEDUP_TTL)
  {
    T.PruningIsInvisible(s.dedupLog, DedupKey(lower, job), now, DEDUP_TTL);
  }

  /// Pruning does not change the answer, which is that of the full log if the clock is not behind it.
  lemma CheckOutcome(lower: char -> char, s: State, job: Job, now: int)
    requires Inv(lower, s)
    ensures Inv(lower, Apply(lower, s, Check(job, now)))
    ensures RecentlyReplicated(lower, T.Pruned(s.dedup, now, DEDUP_TTL), job, now)
       <==> RecentlyReplicated(lower, s.dedup, job, now)
    ensures Trim(job.checksum) != "" && T.NotAfter(s.dedupLog, now) ==>
              (RecentlyReplicated(lower, s.dedup, job, now)
               <==> T.Recent(T.Marks(s.dedupLog), DedupKey(lower, job), now, DEDUP_TTL))
  {
    StepInv(lower, s, Check(job, now));
    T.LookKeepsAnswer(s.dedup, DedupKey(lower, job), now, DEDUP_TTL);
    if Trim(job.checksum) != "" && T.NotAfter(s.dedupLog, now) {
      CheckAnswersAsLog(lower, s, job, now);
    }
  }

  /// A job passes the gate exactly when it comes 20 seconds after every attempt for its peer; one that does
  /// not finds the gauge positive.
  lemma GateOutcome(lower: char -> char, s: State, w: nat, now: int)
    requires Inv(lower, s) && Enabled(s, Gate(w, now))
    ensures Inv(lower, Apply(lower, s, Gate(w, now)))
    ensures var job := s.workers[w].job;
            && (!CoolingDown(s, PeerKey(lower, job), now) <==> Rested(lower, s.attempts, job, now))
            && s.activeGauge >= 1
  {
    StepInv(lower, s, Gate(w, now));
    ActiveIsCounted(lower, s, w);
    CoolingIff(lower, s, s.workers[w].job, now);
  }
}
