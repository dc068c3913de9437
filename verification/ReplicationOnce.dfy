/// How often one job can be replicated (src/app/p2p_replication.go). The worker does not look at the dedup
/// map again, so the duplicate check protects a key only from jobs that come after its mark.
///
/// The jobs of the machine in Replication are followed by the number of their admission.
module ReplicationOnce {
  import opened Text
  import opened Wrappers
  import opened Counting
  import opened Clock
  import opened Replication
  import T = TtlMap

  /// A mark: the admission of the job that made it, and its place in the log
  datatype Marked = Marked(admission: nat, at: nat)

  datatype Tagged = Tagged(s: State, admitted: seq<nat>, queue: seq<nat>, workers: seq<Option<nat>>, marks: seq<Marked>)

  function Start(workers: nat): Tagged {
    Tagged(Init(workers), [], [], seq(workers, _ => None), [])
  }

  /// The worker has a job that is not marked yet.
  predicate HasJob(pc: Pc) {
    pc.Took? || pc.Counted? || pc.Passed? || pc.Succeeded?
  }

  /// The tags are where the jobs are.
  predicate Shaped(t: Tagged) {
    && |t.admitted| == |t.s.admitted| && |t.queue| == |t.s.queue| && |t.workers| == |t.s.workers|
    && forall w | 0 <= w < |t.workers| :: HasJob(t.s.workers[w]) ==> t.workers[w].Some?
  }

  function Follow(lower: char -> char, t: Tagged, e: Event): Tagged
    requires Enabled(t.s, e) && Shaped(t)
  {
    var s' := Apply(lower, t.s, e);
    match e
    case Check(_, _) =>
      if |s'.admitted| > |t.s.admitted| then t.(s := s', admitted := t.admitted + [|t.s.admissions|]) else t.(s := s')
    case Offer(i) =>
      var rest := t.admitted[..i] + t.admitted[i + 1..];
      t.(s := s', admitted := rest, queue := if |t.s.queue| < QUEUE_SIZE then t.queue + [t.admitted[i]] else t.queue)
    case Receive(w) => t.(s := s', workers := t.workers[w := Some(t.queue[0])], queue := t.queue[1..])
    case MarkReplicated(w, _) =>
      var done := t.(s := s', workers := t.workers[w := None]);
      if Trim(t.s.workers[w].job.checksum) == "" then done
      else done.(marks := t.marks + [Marked(t.workers[w].value, |t.s.dedupLog|)])
    case _ => t.(s := s')
  }

  // ---------------------------------------------------------------- what the tags say

  predicate IsAdmission(admissions: seq<Admission>, tag: nat, job: Job) {
    tag < |admissions| && admissions[tag].job == job
  }

  predicate TagsOf(admissions: seq<Admission>, tags: seq<nat>, jobs: seq<Job>) {
    |tags| == |jobs| && forall i | 0 <= i < |tags| :: IsAdmission(admissions, tags[i], jobs[i])
  }

  predicate WorkersTagged(admissions: seq<Admission>, tags: seq<Option<nat>>, pcs: seq<Pc>) {
    && |tags| == |pcs|
    && forall w | 0 <= w < |pcs| && HasJob(pcs[w]) ::
         tags[w].Some? && IsAdmission(admissions, tags[w].value, pcs[w].job)
  }

  /// An admission looked at the log at the place it remembers.
  predicate Looked(log: seq<T.Op>, a: Admission) {
    a.seen < |log| && log[a.seen] == T.Look(a.now)
  }

  predicate MarkOk(lower: char -> char, log: seq<T.Op>, admissions: seq<Admission>, m: Marked) {
    && m.admission < |admissions| && m.at < |log| && admissions[m.admission].seen < m.at
    && Trim(admissions[m.admission].job.checksum) != ""
    && log[m.at].Mark? && log[m.at].key == DedupKey(lower, admissions[m.admission].job)
  }

  ghost predicate TagInv(lower: char -> char, t: Tagged) {
    && TagsOf(t.s.admissions, t.admitted, t.s.admitted)
    && TagsOf(t.s.admissions, t.queue, t.s.queue)
    && WorkersTagged(t.s.admissions, t.workers, t.s.workers)
    && (forall i | 0 <= i < |t.s.admissions| :: Looked(t.s.dedupLog, t.s.admissions[i]))
    && (forall i | 0 <= i < |t.marks| :: MarkOk(lower, t.s.dedupLog, t.s.admissions, t.marks[i]))
  }

  /// The log and the admissions only grow.
  lemma GrowingKeeps(
    lower: char -> char, log: seq<T.Op>, op: T.Op, as0: seq<Admission>, as1: seq<Admission>, marks: seq<Marked>)
    requires as0 <= as1
    requires forall i | 0 <= i < |as0| :: Looked(log, as0[i])
    requires forall i | 0 <= i < |marks| :: MarkOk(lower, log, as0, marks[i])
    ensures forall i | 0 <= i < |as0| :: Looked(log + [op], as1[i])
    ensures forall i | 0 <= i < |marks| :: MarkOk(lower, log + [op], as1, marks[i])
  {
    forall i | 0 <= i < |as0| ensures Looked(log + [op], as1[i]) {
      assert as1[i] == as0[i] && Looked(log, as0[i]);
    }
    forall i | 0 <= i < |marks| ensures MarkOk(lower, log + [op], as1, marks[i]) {
      assert MarkOk(lower, log, as0, marks[i]) && as1[marks[i].admission] == as0[marks[i].admission];
    }
  }

  lemma TagsKept(as0: seq<Admission>, as1: seq<Admission>, tags: seq<nat>, jobs: seq<Job>)
    requires as0 <= as1 && TagsOf(as0, tags, jobs)
    ensures TagsOf(as1, tags, jobs)
  {
    forall i | 0 <= i < |tags| ensures IsAdmission(as1, tags[i], jobs[i]) {
      assert IsAdmission(as0, tags[i], jobs[i]);
    }
  }

  lemma TagsMoved(
    admissions: seq<Admission>, tags: seq<nat>, jobs: seq<Job>, queueTags: seq<nat>, queue: seq<Job>, i: nat)
    requires TagsOf(admissions, tags, jobs) && TagsOf(admissions, queueTags, queue) && i < |tags|
    ensures TagsOf(admissions, tags[..i] + tags[i + 1..], jobs[..i] + jobs[i + 1..])
    ensures TagsOf(admissions, queueTags + [tags[i]], queue + [jobs[i]])
  {
  }

  lemma WorkersKept(as0: seq<Admission>, as1: seq<Admission>, tags: seq<Option<nat>>, pcs: seq<Pc>)
    requires as0 <= as1 && WorkersTagged(as0, tags, pcs)
    ensures WorkersTagged(as1, tags, pcs)
  {
    forall w | 0 <= w < |pcs| && HasJob(pcs[w]) ensures IsAdmission(as1, tags[w].value, pcs[w].job) {
      assert IsAdmission(as0, tags[w].value, pcs[w].job);
    }
  }

  lemma CheckTags(lower: char -> char, t: Tagged, e: Event)
    requires TagInv(lower, t) && e.Check?
    ensures TagInv(lower, Follow(lower, t, e))
  {
    var s' := Apply(lower, t.s, e);
    GrowingKeeps(lower, t.s.dedupLog, T.Look(e.now), t.s.admissions, s'.admissions, t.marks);
    TagsKept(t.s.admissions, s'.admissions, t.admitted, t.s.admitted);
    TagsKept(t.s.admissions, s'.admissions, t.queue, t.s.queue);
    WorkersKept(t.s.admissions, s'.admissions, t.workers, t.s.workers);
  }

  lemma OfferTags(lower: char -> char, t: Tagged, e: Event)
    requires TagInv(lower, t) && e.Offer? && Enabled(t.s, e)
    ensures TagInv(lower, Follow(lower, t, e))
  {
    TagsMoved(t.s.admissions, t.admitted, t.s.admitted, t.queue, t.s.queue, e.i);
  }

  lemma MarkTags(lower: char -> char, t: Tagged, e: Event)
    requires TagInv(lower, t) && e.MarkReplicated? && Enabled(t.s, e)
    ensures TagInv(lower, Follow(lower, t, e))
  {
    var job := t.s.workers[e.w].job;
    assert IsAdmission(t.s.admissions, t.workers[e.w].value, job);
    assert Looked(t.s.dedupLog, t.s.admissions[t.workers[e.w].value]);
    GrowingKeeps(lower, t.s.dedupLog, T.Mark(DedupKey(lower, job), e.now), t.s.admissions, t.s.admissions, t.marks);
  }

  lemma OtherTags(lower: char -> char, t: Tagged, e: Event)
    requires TagInv(lower, t) && !e.Check? && !e.Offer? && !e.MarkReplicated? && Enabled(t.s, e)
    ensures TagInv(lower, Follow(lower, t, e))
  {
  }

  lemma StepTags(lower: char -> char, t: Tagged, e: Event)
    requires TagInv(lower, t) && Enabled(t.s, e)
    ensures TagInv(lower, Follow(lower, t, e))
  {
    match e {
      case Check(_, _) => CheckTags(lower, t, e);
      case Offer(_) => OfferTags(lower, t, e);
      case MarkReplicated(_, _) => MarkTags(lower, t, e);
      case _ => OtherTags(lower, t, e);
    }
  }

  // ---------------------------------------------------------------- every mark has its own admission

  /// Some entry stands for the mark at this place of the log.
  predicate IsListed(marks: seq<Marked>, at: int) {
    exists i | 0 <= i < |marks| :: marks[i].at == at
  }

  predicate Covered(log: seq<T.Op>, marks: seq<Marked>) {
    forall at | 0 <= at < |log| && log[at].Mark? :: IsListed(marks, at)
  }

  /// The log grows by at most one, and a mark is listed as it is made.
  lemma StepMarks(lower: char -> char, t: Tagged, e: Event)
    requires Shaped(t) && Enabled(t.s, e)
    ensures var t' := Follow(lower, t, e);
            && t.s.dedupLog <= t'.s.dedupLog && |t'.s.dedupLog| <= |t.s.dedupLog| + 1 && t.marks <= t'.marks
            && (|t'.s.dedupLog| > |t.s.dedupLog| && t'.s.dedupLog[|t.s.dedupLog|].Mark?
                ==> |t'.marks| > |t.marks| && t'.marks[|t.marks|].at == |t.s.dedupLog|)
  {
  }

  lemma StepCovered(lower: char -> char, t: Tagged, e: Event)
    requires Shaped(t) && Enabled(t.s, e) && Covered(t.s.dedupLog, t.marks)
    ensures var t' := Follow(lower, t, e); Covered(t'.s.dedupLog, t'.marks)
  {
    var t' := Follow(lower, t, e);
    StepMarks(lower, t, e);
    forall at | 0 <= at < |t'.s.dedupLog| && t'.s.dedupLog[at].Mark? ensures IsListed(t'.marks, at) {
      if at < |t.s.dedupLog| {
        assert IsListed(t.marks, at);
        var i :| 0 <= i < |t.marks| && t.marks[i].at == at;
        assert t'.marks[i].at == at;
      } else {
        assert t'.marks[|t.marks|].at == at;
      }
    }
  }

  function IsTag(n: nat): nat -> nat {
    (tag: nat) => if tag == n then 1 else 0
  }

  function IsHeld(n: nat): Option<nat> -> nat {
    (tag: Option<nat>) => if tag == Some(n) then 1 else 0
  }

  function IsOf(n: nat): Marked -> nat {
    (m: Marked) => if m.admission == n then 1 else 0
  }

  /// The places where admission n is: admitted, in the channel, with a worker, or marked
  function Places(t: Tagged, n: nat): nat {
    Sum(IsTag(n), t.admitted) + Sum(IsTag(n), t.queue) + Sum(IsHeld(n), t.workers) + Sum(IsOf(n), t.marks)
  }

  /// Every admission is in one place at most.
  ghost predicate Single(t: Tagged) {
    forall n: nat :: Places(t, n) <= 1 && (n >= |t.s.admissions| ==> Places(t, n) == 0)
  }

  lemma CheckPlaces(lower: char -> char, t: Tagged, e: Event, n: nat)
    requires Shaped(t) && e.Check?
    ensures var t' := Follow(lower, t, e);
            && |t.s.admissions| <= |t'.s.admissions|
            && (Places(t', n) == Places(t, n)
                || (n == |t.s.admissions| < |t'.s.admissions| && Places(t', n) == Places(t, n) + 1))
  {
    SumAppend<nat>(IsTag(n), t.admitted, |t.s.admissions|);
  }

  lemma OfferPlaces(lower: char -> char, t: Tagged, i: nat, n: nat)
    requires Shaped(t) && Enabled(t.s, Offer(i))
    ensures Places(Follow(lower, t, Offer(i)), n) <= Places(t, n)
  {
    SumRemove(IsTag(n), t.admitted, i);
    SumAppend(IsTag(n), t.queue, t.admitted[i]);
  }

  lemma ReceivePlaces(lower: char -> char, t: Tagged, w: nat, n: nat)
    requires Shaped(t) && Enabled(t.s, Receive(w))
    ensures Places(Follow(lower, t, Receive(w)), n) <= Places(t, n)
  {
    SumUpdate(IsHeld(n), t.workers, w, Some(t.queue[0]));
  }

  lemma MarkPlaces(lower: char -> char, t: Tagged, w: nat, now: int, n: nat)
    requires Shaped(t) && Enabled(t.s, MarkReplicated(w, now))
    ensures Places(Follow(lower, t, MarkReplicated(w, now)), n) <= Places(t, n)
  {
    SumUpdate(IsHeld(n), t.workers, w, None);
    SumAppend(IsOf(n), t.marks, Marked(t.workers[w].value, |t.s.dedupLog|));
  }

  lemma StepPlaces(lower: char -> char, t: Tagged, e: Event, n: nat)
    requires Shaped(t) && Enabled(t.s, e) && !e.Check?
    ensures Places(Follow(lower, t, e), n) <= Places(t, n)
    ensures Follow(lower, t, e).s.admissions == t.s.admissions
  {
    match e {
      case Offer(i) => OfferPlaces(lower, t, i, n);
      case Receive(w) => ReceivePlaces(lower, t, w, n);
      case MarkReplicated(w, now) => MarkPlaces(lower, t, w, now, n);
      case _ =>
    }
  }

  lemma StepSingle(lower: char -> char, t: Tagged, e: Event)
    requires Single(t) && Shaped(t) && Enabled(t.s, e)
    ensures Single(Follow(lower, t, e))
  {
    var t' := Follow(lower, t, e);
    forall n: nat ensures Places(t', n) <= 1 && (n >= |t'.s.admissions| ==> Places(t', n) == 0) {
      assert Places(t, n) <= 1 && (n >= |t.s.admissions| ==> Places(t, n) == 0);
      if e.Check? {
        CheckPlaces(lower, t, e, n);
      } else {
        StepPlaces(lower, t, e, n);
      }
    }
  }

  /// Two marks are of two admissions.
  lemma MarksDiffer(t: Tagged, i: nat, j: nat)
    requires Single(t) && i < |t.marks| && j < |t.marks| && i != j
    ensures t.marks[i].admission != t.marks[j].admission
  {
    var n := t.marks[i].admission;
    assert Places(t, n) <= 1;
    SumOfTwo(IsOf(n), t.marks, if i < j then i else j, if i < j then j else i);
  }

  // ---------------------------------------------------------------- runs, followed

  ghost predicate FollowInv(lower: char -> char, t: Tagged) {
    TagInv(lower, t) && Single(t) && Covered(t.s.dedupLog, t.marks)
  }

  /// Every run of the machine can be followed, and the invariants hold of where it ends.
  lemma {:induction false} RunIsFollowed(lower: char -> char, t: Tagged, es: seq<Event>, s': State) returns (t': Tagged)
    requires FollowInv(lower, t) && Run(lower, t.s, es, s')
    ensures FollowInv(lower, t') && t'.s == s'
    decreases |es|
  {
    if es == [] {
      t' := t;
    } else {
      StepTags(lower, t, es[0]);
      StepSingle(lower, t, es[0]);
      StepCovered(lower, t, es[0]);
      t' := RunIsFollowed(lower, Follow(lower, t, es[0]), es[1..], s');
    }
  }

  // ---------------------------------------------------------------- at most once a day?

  lemma RisesBefore(log: seq<T.Op>, n: nat)
    requires n < |log| && T.ClockRises(log)
    ensures T.NotAfter(log[..n], log[n].now) && T.ClockRises(log[..n])
  {
  }

  /// A job admitted after a mark of its key finds it and is admitted only a day later.
  lemma AdmittedLater(lower: char -> char, t: Tagged, tag: nat, at: nat)
    requires TagInv(lower, t) && Deduped(lower, t.s) && T.ClockRises(t.s.dedupLog) && tag < |t.s.admissions|
    requires var a := t.s.admissions[tag];
             && Trim(a.job.checksum) != "" && at < a.seen
             && t.s.dedupLog[at].Mark? && t.s.dedupLog[at].key == DedupKey(lower, a.job)
    ensures t.s.admissions[tag].now - t.s.dedupLog[at].now >= DEDUP_TTL
  {
    var a, log := t.s.admissions[tag], t.s.dedupLog;
    assert Looked(log, a);
    RisesBefore(log, a.seen);
    T.PruningIsInvisible(log[..a.seen], DedupKey(lower, a.job), a.now, DEDUP_TTL);
    T.LastMarkIsLater(log[..a.seen], at);
  }

  predicate SameKeyMarks(log: seq<T.Op>, i: nat, j: nat) {
    i < j < |log| && log[i].Mark? && log[j].Mark? && log[i].key == log[j].key
  }

  lemma CloseMarks(lower: char -> char, t: Tagged, a: Marked, b: Marked)
    requires TagInv(lower, t) && Deduped(lower, t.s) && T.ClockRises(t.s.dedupLog)
    requires MarkOk(lower, t.s.dedupLog, t.s.admissions, b) && SameKeyMarks(t.s.dedupLog, a.at, b.at)
    requires t.s.dedupLog[b.at].now - t.s.dedupLog[a.at].now < DEDUP_TTL
    ensures t.s.admissions[b.admission].seen < a.at
  {
    var late := t.s.admissions[b.admission];
    assert Looked(t.s.dedupLog, late);
    if late.seen > a.at {
      AdmittedLater(lower, t, b.admission, a.at);
    }
  }

  lemma StartFollows(lower: char -> char, workers: nat)
    ensures FollowInv(lower, Start(workers))
  {
    forall n: nat ensures Places(Start(workers), n) == 0 {
      SumRepeat(IsHeld(n), workers, None);
    }
  }

  /// Admission i of a job under the key, from before place a of the log
  predicate AdmittedBefore(lower: char -> char, s: State, i: nat, key: string, a: nat) {
    i < |s.admissions| && s.admissions[i].seen < a && DedupKey(lower, s.admissions[i].job) == key
  }

  /// Over every run with a rising clock: two marks of one key that are less than 24 hours apart come from
  /// two admissions, and both had passed the duplicate check before the first of the marks was made.
  lemma CloseMarksWereBothAdmitted(
    lower: char -> char, workers: nat, es: seq<Event>, s: State, a: nat, b: nat) returns (i: nat, j: nat)
    requires Run(lower, Init(workers), es, s) && T.ClockRises(s.dedupLog)
    requires SameKeyMarks(s.dedupLog, a, b) && s.dedupLog[b].now - s.dedupLog[a].now < 24 * HOUR
    ensures i != j
    ensures AdmittedBefore(lower, s, i, s.dedupLog[a].key, a) && AdmittedBefore(lower, s, j, s.dedupLog[a].key, a)
  {
    StartFollows(lower, workers);
    var t := RunIsFollowed(lower, Start(workers), es, s);
    RunDeduped(lower, Init(workers), es, s);
    assert IsListed(t.marks, a) && IsListed(t.marks, b);
    var m :| 0 <= m < |t.marks| && t.marks[m].at == a;
    var n :| 0 <= n < |t.marks| && t.marks[n].at == b;
    MarksDiffer(t, m, n);
    CloseMarks(lower, t, t.marks[m], t.marks[n]);
    i, j := t.marks[m].admission, t.marks[n].admission;
    assert MarkOk(lower, s.dedupLog, s.admissions, t.marks[m]) && MarkOk(lower, s.dedupLog, s.admissions, t.marks[n]);
  }

  // ---------------------------------------------------------------- and it happens

  /// Two workers on their jobs, and what the checks, gates and marks of the run have left
  predicate Stage(
    s: State, admitted: seq<Job>, queue: seq<Job>, workers: seq<Pc>, attempts: map<string, int>, log: seq<T.Op>)
  {
    && s.admitted == admitted && s.queue == queue && s.workers == workers
    && s.peerLastAttempt == attempts && s.dedupLog == log
    && (|log| <= 2 ==> s.dedup == map[])
  }

  lemma BothAdmitted(lower: char -> char, job: Job) returns (s: State)
    ensures Run(lower, Init(2), [Check(job, 1), Check(job, 1), Offer(0), Offer(0)], s)
    ensures Stage(s, [], [job, job], [Idle, Idle], map[], [T.Look(1), T.Look(1)])
  {
    var es := [Check(job, 1), Check(job, 1), Offer(0), Offer(0)];
    var s1 := Apply(lower, Init(2), es[0]);
    assert Stage(s1, [job], [], [Idle, Idle], map[], [T.Look(1)]);
    var s2 := Apply(lower, s1, es[1]);
    assert Stage(s2, [job, job], [], [Idle, Idle], map[], [T.Look(1), T.Look(1)]);
    var s3 := Apply(lower, s2, es[2]);
    assert Stage(s3, [job], [job], [Idle, Idle], map[], [T.Look(1), T.Look(1)]);
    s := Apply(lower, s3, es[3]);
    RunOfFour(lower, Init(2), es, s1, s2, s3, s);
  }

  lemma BothTaken(lower: char -> char, job: Job, s0: State) returns (s: State)
    requires Stage(s0, [], [job, job], [Idle, Idle], map[], [T.Look(1), T.Look(1)])
    ensures Run(lower, s0, [Receive(0), Receive(1), CountActive(0), CountActive(1)], s)
    ensures Stage(s, [], [], [Counted(job), Counted(job)], map[], [T.Look(1), T.Look(1)])
  {
    var es := [Receive(0), Receive(1), CountActive(0), CountActive(1)];
    var s1 := Apply(lower, s0, es[0]);
    assert Stage(s1, [], [job], [Took(job), Idle], map[], [T.Look(1), T.Look(1)]);
    var s2 := Apply(lower, s1, es[1]);
    assert Stage(s2, [], [], [Took(job), Took(job)], map[], [T.Look(1), T.Look(1)]);
    var s3 := Apply(lower, s2, es[2]);
    assert Stage(s3, [], [], [Counted(job), Took(job)], map[], [T.Look(1), T.Look(1)]);
    s := Apply(lower, s3, es[3]);
    RunOfFour(lower, s0, es, s1, s2, s3, s);
  }

  /// The cooldown lets both through, 20 seconds apart.
  lemma BothReplicated(lower: char -> char, job: Job, s0: State) returns (s: State)
    requires Stage(s0, [], [], [Counted(job), Counted(job)], map[], [T.Look(1), T.Look(1)])
    ensures Run(lower, s0, [Gate(0, 1), Gate(1, 1 + COOLDOWN), Replicate(0, true), Replicate(1, true)], s)
    ensures s.workers == [Succeeded(job), Succeeded(job)] && s.dedupLog == [T.Look(1), T.Look(1)]
  {
    var es := [Gate(0, 1), Gate(1, 1 + COOLDOWN), Replicate(0, true), Replicate(1, true)];
    var s1 := Apply(lower, s0, es[0]);
    assert s1.workers == [Passed(job), Counted(job)] && s1.peerLastAttempt == map[PeerKey(lower, job) := 1];
    var s2 := Apply(lower, s1, es[1]);
    assert s2.workers == [Passed(job), Passed(job)];
    var s3 := Apply(lower, s2, es[2]);
    assert s3.workers == [Succeeded(job), Passed(job)];
    s := Apply(lower, s3, es[3]);
    RunOfFour(lower, s0, es, s1, s2, s3, s);
  }

  lemma BothMarked(lower: char -> char, job: Job, s0: State, first: int, second: int) returns (s: State)
    requires s0.workers == [Succeeded(job), Succeeded(job)] && s0.dedupLog == [T.Look(1), T.Look(1)]
    requires Trim(job.checksum) != ""
    ensures Run(lower, s0, [MarkReplicated(0, first), MarkReplicated(1, second), Finish(0), Finish(1)], s)
    ensures var k := DedupKey(lower, job); s.dedupLog == [T.Look(1), T.Look(1), T.Mark(k, first), T.Mark(k, second)]
  {
    var es := [MarkReplicated(0, first), MarkReplicated(1, second), Finish(0), Finish(1)];
    var s1 := Apply(lower, s0, es[0]);
    assert s1.workers == [Finishing, Succeeded(job)];
    var s2 := Apply(lower, s1, es[1]);
    assert s2.workers == [Finishing, Finishing];
    var s3 := Apply(lower, s2, es[2]);
    assert s3.workers == [Idle, Finishing];
    s := Apply(lower, s3, es[3]);
    RunOfFour(lower, s0, es, s1, s2, s3, s);
  }

  lemma TwoSucceed(lower: char -> char, job: Job) returns (es: seq<Event>, s: State)
    ensures Run(lower, Init(2), es, s)
    ensures s.workers == [Succeeded(job), Succeeded(job)] && s.dedupLog == [T.Look(1), T.Look(1)]
  {
    var s1 := BothAdmitted(lower, job);
    var s2 := BothTaken(lower, job, s1);
    s := BothReplicated(lower, job, s2);
    var a := [Check(job, 1), Check(job, 1), Offer(0), Offer(0)];
    var b := [Receive(0), Receive(1), CountActive(0), CountActive(1)];
    var c := [Gate(0, 1), Gate(1, 1 + COOLDOWN), Replicate(0, true), Replicate(1, true)];
    RunConcat(lower, Init(2), a, s1, b, s2);
    RunConcat(lower, Init(2), a + b, s2, c, s);
    es := a + b + c;
  }

  lemma TwoMarks(log: seq<T.Op>, key: string, first: int, gap: nat)
    requires first >= 1 && log == [T.Look(1), T.Look(1), T.Mark(key, first), T.Mark(key, first + gap)]
    ensures T.ClockRises(log) && SameKeyMarks(log, 2, 3)
  {
  }

  /// A job that is enqueued twice before its first mark is replicated twice, with its marks any time apart.
  lemma ReplicatedTwice(lower: char -> char, job: Job, gap: nat) returns (es: seq<Event>, s: State)
    requires Trim(job.checksum) != ""
    ensures Run(lower, Init(WORKERS), es, s) && T.ClockRises(s.dedupLog) && |s.dedupLog| == 4
    ensures SameKeyMarks(s.dedupLog, 2, 3) && s.dedupLog[2].key == DedupKey(lower, job)
    ensures s.dedupLog[3].now - s.dedupLog[2].now == gap
  {
    var before, s0 := TwoSucceed(lower, job);
    s := BothMarked(lower, job, s0, 1 + COOLDOWN, 1 + COOLDOWN + gap);
    var marks := [MarkReplicated(0, 1 + COOLDOWN), MarkReplicated(1, 1 + COOLDOWN + gap), Finish(0), Finish(1)];
    RunConcat(lower, Init(2), before, s0, marks, s);
    es := before + marks;
    TwoMarks(s.dedupLog, DedupKey(lower, job), 1 + COOLDOWN, gap);
  }
}
