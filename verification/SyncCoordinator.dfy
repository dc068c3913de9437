/// syncCoordinator (src/app/sync.go) with its fields updated in place. Each locked region and channel
/// operation is a method that takes the step of the same name in Sync; the methods below them are the
/// sequential code that strings the steps together.
module SyncCoordinators {
  import opened Text
  import opened Wrappers
  import opened Clock
  import opened Sync
  import opened SyncLaws
  import opened SyncKeys
  import T = TtlMap

  const DEFAULT_POLL := 900 * SECOND
  const PROCESSED_EVENT_TTL := 30 * MINUTE

  /// Events older than the TTL, and not just as old, are forgotten: times are whole nanoseconds.
  const FORGET_AFTER := PROCESSED_EVENT_TTL + 1

  datatype Ping = Ping(eventType: string, eventId: string, resource: string, installationType: string, revision: string)

  class SyncCoordinator {
    const lower: char -> char
    const fold: char -> char

    var queue: seq<Trigger>
    var queuedByKey: map<string, Trigger>
    var processedEvents: map<string, int>
    var revisions: map<string, string>
    var pollEvery: int

    // the goroutines: enqueuers before their select, spawned senders, the consumer
    var unsent: seq<Trigger>
    var blocked: seq<Trigger>
    var hand: Option<Trigger>
    var working: Option<Trigger>

    ghost const persisted: map<string, string>
    ghost var history: seq<Happening>
    ghost var eventLog: seq<T.Op>

    ghost function View(): State
      reads this
    {
      State(queuedByKey, unsent, blocked, queue, hand, working, revisions, history)
    }

    /// Some run from the persisted revisions leads here, so that all laws of runs hold.
    ghost predicate Valid()
      reads this
    {
      Reachable(lower, persisted, View())
    }

    /// The event map is a pruned log in which no id is accepted twice.
    ghost predicate EventsValid()
      reads this`processedEvents, this`eventLog
    {
      processedEvents == T.Kept(eventLog, FORGET_AFTER) && T.MarkedOnce(eventLog, FORGET_AFTER)
    }

    constructor (lower: char -> char, fold: char -> char, persisted: map<string, string>)
      ensures Valid() && EventsValid() && View() == Init(persisted) && eventLog == []
      ensures this.lower == lower && this.fold == fold && pollEvery == DEFAULT_POLL
    {
      this.lower, this.fold, this.persisted := lower, fold, persisted;
      queue, queuedByKey, processedEvents, revisions, pollEvery := [], map[], map[], persisted, DEFAULT_POLL;
      unsent, blocked, hand, working := [], [], None, None;
      history, eventLog := [], [];
      new;
      InitReachable(lower, persisted);
    }

    /// The locked region of enqueue; `isNew` when a token must be sent
    method EnqueueLocked(t: Trigger) returns (isNew: bool)
      requires Valid()
      modifies this`queuedByKey, this`unsent, this`history
      ensures Valid() && View() == Apply(lower, old(View()), Enqueue(t))
      ensures isNew <==> KeyOf(lower, t) != "|" && KeyOf(lower, t) !in old(queuedByKey)
    {
      StepReachable(lower, persisted, View(), Enqueue(t));
      var key := KeyOf(lower, t);
      if key == "|" {
        return false;
      }
      history := history + [Queued(t)];
      if key in queuedByKey {
        var existing := queuedByKey[key];
        if Trim(t.revision) != "" {
          existing := existing.(revision := t.revision);
        }
        existing := existing.(source := t.source);
        queuedByKey := queuedByKey[key := existing];
        return false;
      }
      queuedByKey := queuedByKey[key := t];
      unsent := unsent + [t];
      return true;
    }

    /// The select of enqueue: into the channel, or into a goroutine that waits for room
    method SendToken(i: nat)
      requires Valid() && Enabled(View(), Send(i))
      modifies this`unsent, this`queue, this`blocked
      ensures Valid() && View() == Apply(lower, old(View()), Send(i))
    {
      StepReachable(lower, persisted, View(), Send(i));
      var t := unsent[i];
      unsent := Remove(unsent, i);
      if |queue| < QUEUE_SIZE {
        queue := queue + [t];
      } else {
        blocked := blocked + [t];
      }
    }

    /// A waiting goroutine's send
    method UnblockSender(i: nat)
      requires Valid() && Enabled(View(), Unblock(i))
      modifies this`queue, this`blocked
      ensures Valid() && View() == Apply(lower, old(View()), Unblock(i))
    {
      StepReachable(lower, persisted, View(), Unblock(i));
      queue := queue + [blocked[i]];
      blocked := Remove(blocked, i);
    }

    /// The consumer's receive
    method ReceiveToken()
      requires Valid() && Enabled(View(), Receive)
      modifies this`queue, this`hand
      ensures Valid() && View() == Apply(lower, old(View()), Receive)
    {
      StepReachable(lower, persisted, View(), Receive);
      hand := Some(queue[0]);
      queue := queue[1..];
    }

    /// The locked region of processTrigger. The key is always queued, so the map lookup never comes up
    /// empty; for a burst with a resource the work carries its last revision that is not blank.
    method TakeTrigger()
      requires Valid() && Enabled(View(), Take)
      modifies this`queuedByKey, this`hand, this`working, this`history
      ensures Valid() && View() == Apply(lower, old(View()), Take)
      ensures TookBurst(lower, old(View()), View())
    {
      StepReachable(lower, persisted, View(), Take);
      TakeOutcome(lower, persisted, View());
      var trigger := hand.value;
      var key := KeyOf(lower, trigger);
      var queued := if key in queuedByKey then queuedByKey[key] else Trigger("", "", "", "");
      queuedByKey := queuedByKey - {key};
      if Trim(queued.resource) == "" {
        queued := trigger;
      }
      hand, working := None, Some(queued);
      history := history + [Taken(key, queued)];
    }

    /// The end of processTrigger: a failed sync records nothing
    method FinishSync(ok: bool)
      requires Valid() && Enabled(View(), Finish(ok))
      modifies this`working, this`revisions
      ensures Valid() && View() == Apply(lower, old(View()), Finish(ok))
    {
      StepReachable(lower, persisted, View(), Finish(ok));
      var queued := working.value;
      working := None;
      if !ok {
        return;
      }
      var revision := Trim(queued.revision);
      if revision != "" {
        var key := KeyOf(lower, queued);
        if key != "|" {
          revisions := revisions[key := Trim(revision)];
        }
      }
    }

    /// enqueue, when no other goroutine runs in between
    method EnqueueTrigger(t: Trigger)
      requires Valid()
      modifies this`queuedByKey, this`unsent, this`queue, this`blocked, this`history
      ensures Valid() && View() == EnqueueAndSend(lower, old(View()), t)
      ensures Nameless(t) ==> View() == old(View())
      ensures !Nameless(t) ==> IsQueued(lower, View(), t)
    {
      ghost var before := View();
      IgnoredIff(lower, before, t);
      if !Nameless(t) {
        MergesIff(lower, persisted, before, t);
      }
      var isNew := EnqueueLocked(t);
      if isNew {
        SendToken(|unsent| - 1);
      }
    }

    /// The loop of isProcessedEvent. The order in which the entries are visited is open.
    method ForgetEvents(now: int)
      modifies this`processedEvents
      ensures processedEvents == T.Pruned(old(processedEvents), now, FORGET_AFTER)
    {
      ghost var all := processedEvents;
      ghost var dropped := {};
      var unseen := processedEvents.Keys;
      while unseen != {}
        invariant unseen <= all.Keys && processedEvents == all - dropped
        invariant dropped == set k | k in all && k !in unseen && now - all[k] > PROCESSED_EVENT_TTL
        decreases unseen
      {
        var key :| key in unseen;
        unseen := unseen - {key};
        if now - processedEvents[key] > PROCESSED_EVENT_TTL {
          processedEvents := processedEvents - {key};
          dropped := dropped + {key};
        }
      }
    }

    /// isProcessedEvent: true for an id that was accepted at most 30 minutes before `now`, as far as
    /// the map still knows
    method IsProcessedEvent(id: string, now: int) returns (processed: bool)
      requires EventsValid()
      modifies this`processedEvents, this`eventLog
      ensures EventsValid()
      ensures Trim(id) == "" ==> !processed && eventLog == old(eventLog)
      ensures Trim(id) != "" ==>
                && (processed <==> T.Recent(old(processedEvents), Trim(id), now, FORGET_AFTER))
                && eventLog == old(eventLog) + [if processed then T.Look(now) else T.Mark(Trim(id), now)]
    {
      var eventId := Trim(id);
      if eventId == "" {
        return false;
      }
      T.AskThenMark(eventLog, eventId, now, FORGET_AFTER);
      ForgetEvents(now);
      processed := eventId in processedEvents;
      eventLog := eventLog + [if processed then T.Look(now) else T.Mark(eventId, now)];
      if !processed {
        processedEvents := processedEvents[eventId := now];
      }
    }

    /// HandlePing: accepted pings are enqueued with the source "ping"
    method HandlePing(ping: Ping, now: int) returns (accepted: bool)
      requires Valid() && EventsValid()
      modifies this`processedEvents, this`eventLog, this`queuedByKey, this`unsent, this`queue, this`blocked,
               this`history
      ensures Valid() && EventsValid()
      ensures accepted <==>
                && (Trim(ping.eventType) == "" || EqualFold(fold, Trim(ping.eventType), "sync.invalidated"))
                && Trim(ping.resource) != ""
                && !(Trim(ping.eventId) != "" && T.Recent(old(processedEvents), Trim(ping.eventId), now, FORGET_AFTER))
      ensures View() == if accepted
                        then EnqueueAndSend(
                               lower, old(View()),
                               Trigger(Trim(ping.resource), Trim(ping.installationType), Trim(ping.revision), "ping"))
                        else old(View())
      ensures accepted ==> IsQueued(lower, View(), Trigger(ping.resource, ping.installationType, ping.revision, "ping"))
    {
      var eventType := Trim(ping.eventType);
      if eventType != "" && !EqualFold(fold, eventType, "sync.invalidated") {
        return false;
      }
      if Trim(ping.resource) == "" {
        return false;
      }
      var processed := IsProcessedEvent(ping.eventId, now);
      if processed {
        return false;
      }
      var t := Trigger(Trim(ping.resource), Trim(ping.installationType), Trim(ping.revision), "ping");
      SentIsQueued(lower, persisted, View(), t, Trigger(ping.resource, ping.installationType, ping.revision, "ping"));
      EnqueueTrigger(t);
      return true;
    }

    /// One manifest entry: enqueued unless its revision is the stored one
    method ReconcileEntry(resource: Entry, source: string)
      requires Valid()
      modifies this`queuedByKey, this`unsent, this`queue, this`blocked, this`history
      ensures Valid()
      ensures View() == ReconcileOne(lower, old(View()), resource, source)
      ensures Wanted(lower, old(revisions), resource) ==> IsQueued(lower, View(), NameOf(resource))
      ensures Nameless(NameOf(resource)) ==> View() == old(View())
    {
      NamelessIff(lower, NameOf(resource));
      var key := EntryKey(lower, resource);
      if key == "|" {
        return;
      }
      var currentRevision := if key in revisions then revisions[key] else "";
      var nextRevision := Trim(resource.revision);
      if nextRevision != "" && currentRevision == nextRevision {
        return;
      }
      var t := Trigger(Trim(resource.resource), Trim(resource.variant), nextRevision, source);
      SentIsQueued(lower, persisted, View(), t, NameOf(resource));
      EnqueueTrigger(t);
    }

    /// reconcileFromManifest, after the manifest has been fetched
    method ReconcileFromManifest(recommendedPollSeconds: int, resources: seq<Entry>, source: string)
      requires Valid()
      modifies this`pollEvery, this`queuedByKey, this`unsent, this`queue, this`blocked, this`history
      ensures Valid() && View() == Reconcile(lower, old(View()), resources, source)
      ensures pollEvery == if recommendedPollSeconds > 0 then recommendedPollSeconds * SECOND else old(pollEvery)
    {
      if recommendedPollSeconds > 0 {
        pollEvery := recommendedPollSeconds * SECOND;
      }
      ghost var start := View();
      for i := 0 to |resources|
        invariant Valid() && View() == Reconcile(lower, start, resources[..i], source)
        invariant pollEvery == if recommendedPollSeconds > 0 then recommendedPollSeconds * SECOND else old(pollEvery)
      {
        ReconcileStep(lower, start, resources, source, i);
        ReconcileEntry(resources[i], source);
      }
      assert resources[..|resources|] == resources;
    }

    method GetPollEvery() returns (every: int)
      ensures every > 0 && (pollEvery > 0 ==> every == pollEvery) && (pollEvery <= 0 ==> every == 900 * SECOND)
    {
      every := if pollEvery <= 0 then DEFAULT_POLL else pollEvery;
    }
  }

  /// With a clock that does not go back, one event id is accepted at most once in any 30 minutes.
  lemma EventAcceptedOnce(log: seq<T.Op>, i: nat, j: nat)
    requires T.MarkedOnce(log, FORGET_AFTER) && T.ClockRises(log)
    requires i < j < |log| && log[i].Mark? && log[j].Mark? && log[i].key == log[j].key
    ensures log[j].now - log[i].now > 30 * MINUTE
  {
    T.MarksAreApart(log, FORGET_AFTER, i, j);
  }
}
