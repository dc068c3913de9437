/// The replication fields of p2pCoordinator (src/app/p2p_replication.go), updated in place. Each locked
/// region and channel operation is a method that takes the step of the same name in Replication.
module Replicators {
  import opened Text
  import opened Wrappers
  import opened Replication
  import T = TtlMap

  const AUDIT_LIMIT := 100

  datatype AuditEvent = AuditEvent(
    action: string, artifact: string, peer: string, source: string, success: bool, message: string)

  datatype EnqueueError = InvalidArtifact | NoPeer | NoChecksum | Duplicate | QueueFull

  function Take<T>(s: seq<T>, n: nat): seq<T> {
    if |s| > n then s[..n] else s
  }

  class Replicator {
    const lower: char -> char
    const sanitize: string -> string // sanitizeArtifactName

    var queue: seq<Job>
    var queuedReplications: int
    var activeReplications: int
    var peerLastAttempt: map<string, int>
    var replicationDedup: map<string, int>
    var audit: seq<AuditEvent>

    // the goroutines
    var admitted: seq<Job>
    var uncounted: nat
    var workers: seq<Pc>

    ghost var skipped: nat
    ghost var attempts: seq<Attempt>
    ghost var dedupLog: seq<T.Op>
    ghost var admissions: seq<Admission>

    ghost function View(): State
      reads this
    {
      State(admitted, queue, uncounted, workers, queuedReplications, activeReplications, peerLastAttempt,
            replicationDedup, skipped, attempts, dedupLog, admissions)
    }

    ghost predicate Valid()
      reads this
    {
      Inv(lower, View())
    }

    constructor (lower: char -> char, sanitize: string -> string)
      ensures Valid() && View() == Init(WORKERS) && audit == []
      ensures this.lower == lower && this.sanitize == sanitize
    {
      this.lower, this.sanitize := lower, sanitize;
      queue, queuedReplications, activeReplications, peerLastAttempt, replicationDedup := [], 0, 0, map[], map[];
      audit, admitted, uncounted, workers := [], [], 0, seq(WORKERS, _ => Idle);
      skipped, attempts, dedupLog, admissions := 0, [], [], [];
      new;
      InitInv(lower, WORKERS);
    }

    /// pruneDedupLocked. The order in which the entries are visited is open, as it is for a Go map.
    method PruneDedupLocked(now: int)
      modifies this`replicationDedup
      ensures replicationDedup == T.Pruned(old(replicationDedup), now, DEDUP_TTL)
    {
      ghost var all := replicationDedup;
      ghost var dropped := {};
      var unseen := replicationDedup.Keys;
      while unseen != {}
        invariant unseen <= all.Keys && replicationDedup == all - dropped
        invariant dropped == set k | k in all && k !in unseen && now - all[k] >= DEDUP_TTL
        decreases unseen
      {
        var key :| key in unseen;
        unseen := unseen - {key};
        if now - replicationDedup[key] >= DEDUP_TTL {
          replicationDedup := replicationDedup - {key};
          dropped := dropped + {key};
        }
      }
    }

    /// wasRecentlyReplicatedLocked
    method WasRecentlyReplicatedLocked(job: Job, now: int) returns (recent: bool)
      ensures recent == RecentlyReplicated(lower, replicationDedup, job, now)
    {
      if Trim(job.checksum) == "" {
        return false;
      }
      var key := DedupKey(lower, job);
      if key !in replicationDedup {
        return false;
      }
      recent := now - replicationDedup[key] < DEDUP_TTL;
    }

    /// The locked region of enqueueReplicationJob. With a clock that is not behind the earlier ones the
    /// answer is that of the full log of marks.
    method CheckDuplicate(job: Job, now: int) returns (duplicate: bool)
      requires Valid()
      modifies this`replicationDedup, this`admitted, this`dedupLog, this`admissions
      ensures Valid() && View() == Apply(lower, old(View()), Check(job, now))
      ensures duplicate <==> RecentlyReplicated(lower, old(replicationDedup), job, now)
      ensures Trim(job.checksum) != "" && T.NotAfter(old(dedupLog), now) ==>
                (duplicate <==> T.Recent(T.Marks(old(dedupLog)), DedupKey(lower, job), now, DEDUP_TTL))
      ensures admitted == if duplicate then old(admitted) else old(admitted) + [job]
    {
      CheckOutcome(lower, View(), job, now);
      ghost var seen := |dedupLog|;
      dedupLog := dedupLog + [T.Look(now)];
      PruneDedupLocked(now);
      duplicate := WasRecentlyReplicatedLocked(job, now);
      if !duplicate {
        admitted := admitted + [job];
        admissions := admissions + [Admission(job, now, seen)];
      }
    }

    /// The select of enqueueReplicationJob
    method OfferJob(i: nat) returns (sent: bool)
      requires Valid() && Enabled(View(), Offer(i))
      modifies this`admitted, this`queue, this`uncounted
      ensures Valid() && View() == Apply(lower, old(View()), Offer(i))
      ensures sent <==> |old(queue)| < QUEUE_SIZE
      ensures |queue| <= QUEUE_SIZE
    {
      StepInv(lower, View(), Offer(i));
      var job := admitted[i];
      admitted := admitted[..i] + admitted[i + 1..];
      sent := |queue| < QUEUE_SIZE;
      if sent {
        queue := queue + [job];
        uncounted := uncounted + 1;
      }
    }

    /// The check as its caller sees it
    method Admit(job: Job, now: int) returns (duplicate: bool)
      requires Valid()
      modifies this`replicationDedup, this`admitted, this`dedupLog, this`admissions
      ensures Valid() && (duplicate <==> RecentlyReplicated(lower, old(replicationDedup), job, now))
      ensures admitted == if duplicate then old(admitted) else old(admitted) + [job]
    {
      duplicate := CheckDuplicate(job, now);
    }

    /// The select for the job that was admitted last
    method OfferLast(job: Job) returns (sent: bool)
      requires Valid() && admitted != [] && admitted[|admitted| - 1] == job
      modifies this`admitted, this`queue, this`uncounted
      ensures Valid() && admitted == old(admitted)[..|old(admitted)| - 1]
      ensures sent <==> |old(queue)| < QUEUE_SIZE
      ensures queue == (if sent then old(queue) + [job] else old(queue))
      ensures uncounted == old(uncounted) + (if sent then 1 else 0)
    {
      ghost var rest := admitted[..|admitted| - 1];
      assert rest + admitted[|admitted|..] == rest;
      sent := OfferJob(|admitted| - 1);
    }

    method CountQueuedJob()
      requires Valid() && Enabled(View(), CountQueued)
      modifies this`uncounted, this`queuedReplications
      ensures Valid() && View() == Apply(lower, old(View()), CountQueued)
    {
      StepInv(lower, View(), CountQueued);
      uncounted := uncounted - 1;
      queuedReplications := queuedReplications + 1;
    }

    method ReceiveJob(w: nat)
      requires Valid() && Enabled(View(), Receive(w))
      modifies this`queue, this`workers
      ensures Valid() && View() == Apply(lower, old(View()), Receive(w))
    {
      StepInv(lower, View(), Receive(w));
      workers := workers[w := Took(queue[0])];
      queue := queue[1..];
    }

    /// The locked region of replicationWorker
    method CountActiveJob(w: nat)
      requires Valid() && Enabled(View(), CountActive(w))
      modifies this`workers, this`queuedReplications, this`activeReplications, this`skipped
      ensures Valid() && View() == Apply(lower, old(View()), CountActive(w))
      ensures 1 <= activeReplications == old(activeReplications) + 1 <= |workers|
      ensures queuedReplications >= 0
    {
      ghost var next := Apply(lower, View(), CountActive(w));
      CountOutcome(lower, View(), w);
      if queuedReplications > 0 {
        queuedReplications := queuedReplications - 1;
      } else {
        skipped := skipped + 1;
      }
      activeReplications := activeReplications + 1;
      workers := workers[w := Counted(workers[w].job)];
      assert View() == next;
    }

    /// The branch of a job whose peer is cooling down
    method RefuseJob(w: nat, now: int)
      requires Valid() && Enabled(View(), Gate(w, now)) && CoolingDown(View(), PeerKey(lower, workers[w].job), now)
      modifies this`workers, this`activeReplications
      ensures Valid() && View() == Apply(lower, old(View()), Gate(w, now))
      ensures 0 <= activeReplications == old(activeReplications) - 1
    {
      ghost var next := Apply(lower, View(), Gate(w, now));
      GateOutcome(lower, View(), w, now);
      if activeReplications > 0 {
        activeReplications := activeReplications - 1;
      }
      workers := workers[w := Idle];
      assert View() == next;
    }

    /// The branch of any other job
    method PassJob(w: nat, now: int)
      requires Valid() && Enabled(View(), Gate(w, now)) && !CoolingDown(View(), PeerKey(lower, workers[w].job), now)
      modifies this`workers, this`peerLastAttempt, this`attempts
      ensures Valid() && View() == Apply(lower, old(View()), Gate(w, now))
      ensures attempts == old(attempts) + [Attempt(old(workers)[w].job, now)]
    {
      ghost var next := Apply(lower, View(), Gate(w, now));
      GateOutcome(lower, View(), w, now);
      var job := workers[w].job;
      peerLastAttempt := peerLastAttempt[PeerKey(lower, job) := now];
      attempts := attempts + [Attempt(job, now)];
      workers := workers[w := Passed(job)];
      assert View() == next;
    }

    /// The cooldown gate of processReplicationJob. A job passes exactly when it comes 20 seconds after every
    /// attempt for its peer; for one that does not, the gauge is positive and goes down.
    method PassGate(w: nat, now: int) returns (passed: bool)
      requires Valid() && Enabled(View(), Gate(w, now))
      modifies this`workers, this`activeReplications, this`peerLastAttempt, this`attempts
      ensures Valid() && View() == Apply(lower, old(View()), Gate(w, now))
      ensures passed <==> Rested(lower, old(attempts), old(workers)[w].job, now)
      ensures passed ==> attempts == old(attempts) + [Attempt(old(workers)[w].job, now)]
      ensures !passed ==> 0 <= activeReplications == old(activeReplications) - 1
    {
      GateOutcome(lower, View(), w, now);
      var peerKey := PeerKey(lower, workers[w].job);
      var lastAttempt := if peerKey in peerLastAttempt then peerLastAttempt[peerKey] else ZERO_TIME;
      if lastAttempt != ZERO_TIME && now - lastAttempt < COOLDOWN {
        RefuseJob(w, now);
        return false;
      }
      PassJob(w, now);
      return true;
    }

    /// replicateArtifactToPeerNow, by its outcome
    method ReplicateJob(w: nat, ok: bool)
      requires Valid() && Enabled(View(), Replicate(w, ok))
      modifies this`workers
      ensures Valid() && View() == Apply(lower, old(View()), Replicate(w, ok))
    {
      StepInv(lower, View(), Replicate(w, ok));
      workers := workers[w := if ok then Succeeded(workers[w].job) else Finishing];
    }

    /// markReplicated. For 24 hours the job is then a duplicate.
    method MarkJob(w: nat, now: int)
      requires Valid() && Enabled(View(), MarkReplicated(w, now))
      modifies this`workers, this`replicationDedup, this`dedupLog
      ensures Valid() && View() == Apply(lower, old(View()), MarkReplicated(w, now))
      ensures var job := old(workers)[w].job;
              Trim(job.checksum) != "" ==>
                forall t | t - now < DEDUP_TTL :: RecentlyReplicated(lower, replicationDedup, job, t)
    {
      StepInv(lower, View(), MarkReplicated(w, now));
      var job := workers[w].job;
      workers := workers[w := Finishing];
      if Trim(job.checksum) == "" {
        return;
      }
      PruneDedupLocked(now);
      replicationDedup := replicationDedup[DedupKey(lower, job) := now];
      dedupLog := dedupLog + [T.Mark(DedupKey(lower, job), now)];
    }

    /// The last locked region of processReplicationJob. The gauge is positive, so its guard never fails.
    method FinishJob(w: nat)
      requires Valid() && Enabled(View(), Finish(w))
      modifies this`workers, this`activeReplications
      ensures Valid() && View() == Apply(lower, old(View()), Finish(w))
      ensures 0 <= activeReplications == old(activeReplications) - 1
    {
      StepInv(lower, View(), Finish(w));
      ActiveIsCounted(lower, View(), w);
      if activeReplications > 0 {
        activeReplications := activeReplications - 1;
      }
      workers := workers[w := Idle];
    }

    /// appendAudit: newest first, at most 100 kept
    method AppendAudit(event: AuditEvent)
      modifies this`audit
      ensures audit == Take([event] + old(audit), AUDIT_LIMIT)
    {
      audit := [event] + audit;
      if |audit| > AUDIT_LIMIT {
        audit := audit[..AUDIT_LIMIT];
      }
    }

    function Normalized(job: Job, checksum: string): Job {
      var source := Trim(job.source);
      Job(sanitize(job.artifact), checksum, Trim(job.peer), if source == "" then "manual" else source)
    }

    /// enqueueReplicationJob from its locked region on, when no other goroutine runs in between
    method EnqueueNormalized(job: Job, now: int) returns (r: Result<(), EnqueueError>)
      requires Valid()
      modifies this`replicationDedup, this`admitted, this`dedupLog, this`admissions, this`queue, this`uncounted,
               this`queuedReplications, this`audit
      ensures Valid()
      ensures r == Err(Duplicate) <==> RecentlyReplicated(lower, old(replicationDedup), job, now)
      ensures r == Err(QueueFull)
         <==> !RecentlyReplicated(lower, old(replicationDedup), job, now) && |old(queue)| >= QUEUE_SIZE
      ensures r.Ok? || r == Err(Duplicate) || r == Err(QueueFull)
      ensures queue == (if r.Ok? then old(queue) + [job] else old(queue))
      ensures queuedReplications == old(queuedReplications) + (if r.Ok? then 1 else 0)
      ensures admitted == old(admitted) && uncounted == old(uncounted)
    {
      var duplicate := Admit(job, now);
      if duplicate {
        AppendAudit(AuditEvent("skip-duplicate", job.artifact, job.peer, job.source, true, "duplicate"));
        return Err(Duplicate);
      }
      var sent := OfferLast(job);
      if !sent {
        AppendAudit(AuditEvent("queue", job.artifact, job.peer, job.source, false, "queue full"));
        return Err(QueueFull);
      }
      CountQueuedJob();
      AppendAudit(AuditEvent("queue", job.artifact, job.peer, job.source, true, "queued"));
      return Ok(());
    }

    /// enqueueReplicationJob. `resolved` is what resolveArtifactChecksum finds for a job without a
    /// checksum.
    method EnqueueReplicationJob(job: Job, resolved: Option<string>, now: int) returns (r: Result<(), EnqueueError>)
      requires Valid()
      modifies this`replicationDedup, this`admitted, this`dedupLog, this`admissions, this`queue, this`uncounted,
               this`queuedReplications, this`audit
      ensures Valid()
      ensures r == Err(InvalidArtifact) <==> sanitize(job.artifact) == ""
      ensures r == Err(NoPeer) <==> sanitize(job.artifact) != "" && Trim(job.peer) == ""
      ensures r == Err(NoChecksum) <==>
                sanitize(job.artifact) != "" && Trim(job.peer) != "" && Trim(job.checksum) == "" && resolved.None?
      ensures var full := Normalized(job, if Trim(job.checksum) != "" then Trim(job.checksum) else resolved.GetOr(""));
              && (r == Err(Duplicate) ==> RecentlyReplicated(lower, old(replicationDedup), full, now))
              && (r == Err(QueueFull) ==> |old(queue)| >= QUEUE_SIZE)
              && (r.Ok? ==> !RecentlyReplicated(lower, old(replicationDedup), full, now))
              && (r.Ok? ==> queue == old(queue) + [full])
      ensures r.Ok? ==>
                && |queue| == |old(queue)| + 1
                && var sent := queue[|old(queue)|];
                   && sent.artifact == sanitize(job.artifact) && sent.peer == Trim(job.peer)
                   && sent.checksum == (if Trim(job.checksum) != "" then Trim(job.checksum) else resolved.GetOr(""))
                   && sent.source == (if Trim(job.source) != "" then Trim(job.source) else "manual")
      ensures r.Err? ==> queue == old(queue)
      ensures queuedReplications == old(queuedReplications) + (if r.Ok? then 1 else 0)
    {
      var artifact, checksum, peer := sanitize(job.artifact), Trim(job.checksum), Trim(job.peer);
      if artifact == "" {
        return Err(InvalidArtifact);
      }
      if peer == "" {
        return Err(NoPeer);
      }
      if checksum == "" {
        if resolved.None? {
          return Err(NoChecksum);
        }
        checksum := resolved.value;
      }
      r := EnqueueNormalized(Normalized(job, checksum), now);
    }
  }

  /// The audit list after some appends
  function AuditAfter(events: seq<AuditEvent>): seq<AuditEvent> {
    if events == [] then [] else Take([events[|events| - 1]] + AuditAfter(events[..|events| - 1]), AUDIT_LIMIT)
  }

  /// The audit list holds exactly the last 100 events, newest first.
  lemma {:induction false} AuditKeepsTheLast(events: seq<AuditEvent>)
    ensures |AuditAfter(events)| == if |events| < 100 then |events| else 100
    ensures forall i | 0 <= i < |AuditAfter(events)| :: AuditAfter(events)[i] == events[|events| - 1 - i]
  {
    if events != [] {
      var front := events[..|events| - 1];
      var before, after := AuditAfter(front), AuditAfter(events);
      AuditKeepsTheLast(front);
      forall i | 0 <= i < |after| ensures after[i] == events[|events| - 1 - i] {
        assert after[i] == ([events[|events| - 1]] + before)[i];
      }
    }
  }
}
