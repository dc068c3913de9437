/// What the sync queue guarantees over whole runs: no update is lost, queued keys are taken, and
/// reconciling with the manifest converges.
module SyncLaws {
  import opened Text
  import opened Sync
  import opened Sequences

  // ---------------------------------------------------------------- no update is lost

  /// Every take so far worked with what had been queued for its key since the take before it.
  ghost predicate Honest(lower: char -> char, h: seq<Happening>) {
    forall i | 0 <= i < |h| && h[i].Taken? :: HonestTake(lower, h[..i], h[i].key, h[i].work)
  }

  predicate HonestTake(lower: char -> char, before: seq<Happening>, k: string, work: Trigger) {
    var p := Pending(lower, before, k);
    p != [] && KeyOf(lower, p[0]) == k && work == Effective(Coalesced(p), p[0])
  }

  lemma HonestAppend(lower: char -> char, h: seq<Happening>, last: Happening)
    requires Honest(lower, h) && (last.Taken? ==> HonestTake(lower, h, last.key, last.work))
    ensures Honest(lower, h + [last])
  {
    forall i | 0 <= i < |h| + 1 && (h + [last])[i].Taken?
      ensures HonestTake(lower, (h + [last])[..i], (h + [last])[i].key, (h + [last])[i].work) {
      assert (h + [last])[..i] == h[..i];
      assert h[..|h|] == h;
    }
  }

  lemma StepHonest(lower: char -> char, s: State, e: Event)
    requires Inv(lower, s) && Honest(lower, s.history) && Enabled(s, e)
    ensures Honest(lower, Apply(lower, s, e).history)
    ensures s.history <= Apply(lower, s, e).history
  {
    StepHistory(lower, s, e);
    match e {
      case Enqueue(t) => HonestAppend(lower, s.history, Queued(t));
      case Take => TakeHonest(lower, s);
      case _ =>
    }
  }

  lemma StepHistory(lower: char -> char, s: State, e: Event)
    requires Enabled(s, e)
    ensures var h := Apply(lower, s, e).history;
            || h == s.history
            || (e.Enqueue? && h == s.history + [Queued(e.trigger)])
            || (e.Take? && h == s.history + [Taken(KeyOf(lower, s.hand.value), Apply(lower, s, e).working.value)])
  {
  }

  lemma TakeHonest(lower: char -> char, s: State)
    requires Inv(lower, s) && Honest(lower, s.history) && s.hand.Some?
    ensures Honest(lower, Apply(lower, s, Take).history)
  {
    HandIsQueued(lower, s);
    HonestAppend(lower, s.history, Taken(KeyOf(lower, s.hand.value), Apply(lower, s, Take).working.value));
  }

  lemma {:induction false} RunHonest(lower: char -> char, s: State, es: seq<Event>, s': State)
    requires Inv(lower, s) && Honest(lower, s.history) && Run(lower, s, es, s')
    ensures Honest(lower, s'.history) && s.history <= s'.history
    decreases |es|
  {
    if es != [] {
      StepInv(lower, s, es[0]);
      StepHonest(lower, s, es[0]);
      RunHonest(lower, Apply(lower, s, es[0]), es[1..], s');
    }
  }

  /// In every run, each take works with the last non-blank revision queued for its key since the key
  /// was last taken, unless the resource is blank: then it works with the first one.
  lemma NoLostUpdate(lower: char -> char, revisions: map<string, string>, es: seq<Event>, s: State, i: nat)
    requires Run(lower, Init(revisions), es, s) && i < |s.history| && s.history[i].Taken?
    ensures var p := Pending(lower, s.history[..i], s.history[i].key);
            var work := s.history[i].work;
            && p != [] && work.resource == p[0].resource && work.variant == p[0].variant
            && Trim(work.revision) == if Blank(p[0].resource) then Trim(p[0].revision) else LastRevision(p)
  {
    InitInv(lower, revisions);
    RunHonest(lower, Init(revisions), es, s);
    CoalescedKeepsLastRevision(Pending(lower, s.history[..i], s.history[i].key));
  }

  /// A take drops a coalesced revision exactly when the resource is blank and a later trigger brought
  /// another revision.
  lemma UpdateLostIff(lower: char -> char, revisions: map<string, string>, es: seq<Event>, s: State, i: nat)
    requires Run(lower, Init(revisions), es, s) && i < |s.history| && s.history[i].Taken?
    ensures var p := Pending(lower, s.history[..i], s.history[i].key);
            p != [] && (Trim(s.history[i].work.revision) != LastRevision(p)
                        <==> Blank(p[0].resource) && Trim(p[0].revision) != LastRevision(p))
  {
    NoLostUpdate(lower, revisions, es, s, i);
  }

  /// A key that was queued and no longer is has been taken in between, with a take of its own.
  lemma {:induction false} TakenInBetween(
    lower: char -> char, h: seq<Happening>, h': seq<Happening>, k: string) returns (i: nat)
    requires h <= h' && Pending(lower, h, k) != [] && Pending(lower, h', k) == []
    ensures |h| <= i < |h'| && h'[i].Taken? && h'[i].key == k
  {
    assert |h'| == |h| ==> h' == h;
    if |h'| > |h| && !(h'[|h'| - 1].Taken? && h'[|h'| - 1].key == k) {
      assert h <= h'[..|h'| - 1];
      i := TakenInBetween(lower, h, h'[..|h'| - 1], k);
    } else {
      i := |h'| - 1;
    }
  }

  lemma QueuedIsTaken(
    lower: char -> char, revisions: map<string, string>, es: seq<Event>, s: State, more: seq<Event>, s': State,
    k: string)
    returns (i: nat)
    requires Run(lower, Init(revisions), es, s) && Run(lower, s, more, s')
    requires k in s.queuedByKey && k !in s'.queuedByKey
    ensures |s.history| <= i < |s'.history| && s'.history[i].Taken? && s'.history[i].key == k
  {
    InitInv(lower, revisions);
    RunInv(lower, Init(revisions), es, s);
    RunHonest(lower, Init(revisions), es, s);
    RunInv(lower, s, more, s');
    RunHonest(lower, s, more, s');
    assert KeyOk(lower, s.queuedByKey, s.history, k) && KeyOk(lower, s'.queuedByKey, s'.history, k);
    i := TakenInBetween(lower, s.history, s'.history, k);
  }

  // ---------------------------------------------------------------- the queue drains

  /// Steps that the tokens in flight still need
  function Distance(s: State): nat {
    5 * |s.unsent| + 4 * |s.blocked| + 3 * |s.queue| + (if s.hand.Some? then 2 else 0)
      + (if s.working.Some? then 1 else 0)
  }

  predicate Idle(s: State) {
    s.unsent == [] && s.blocked == [] && s.queue == [] && s.hand.None? && s.working.None?
  }

  /// Without new triggers every step brings the queue closer to empty...
  lemma StepCloser(lower: char -> char, s: State, e: Event)
    requires Enabled(s, e) && !e.Enqueue? && (s.hand.None? || s.working.None?)
    ensures Distance(Apply(lower, s, e)) < Distance(s)
  {
  }

  /// ...and until it is empty some step is possible, whether syncs succeed or fail: no token is ever
  /// stuck behind a full channel.
  lemma NeverStuck(lower: char -> char, s: State, ok: bool) returns (e: Event)
    requires Inv(lower, s) && !Idle(s)
    ensures Enabled(s, e) && !e.Enqueue? && (e.Finish? ==> e.ok == ok)
  {
    e := if s.working.Some? then Finish(ok)
         else if s.hand.Some? then Take
         else if s.queue != [] then Receive
         else if s.blocked != [] then Unblock(0)
         else Send(0);
  }

  lemma IdleIsEmpty(lower: char -> char, s: State)
    requires Inv(lower, s) && Idle(s)
    ensures s.queuedByKey == map[]
  {
    assert Tokens(s) == multiset{};
  }

  // ---------------------------------------------------------------- reconciling with the manifest

  datatype Entry = Entry(resource: string, variant: string, revision: string)

  function EntryKey(lower: char -> char, e: Entry): string {
    Key(lower, e.resource, e.variant)
  }

  /// getRevision
  function Revision(revisions: map<string, string>, k: string): string {
    if k in revisions then revisions[k] else ""
  }

  /// reconcileFromManifest enqueues the entry
  predicate Wanted(lower: char -> char, revisions: map<string, string>, e: Entry) {
    && EntryKey(lower, e) != "|"
    && !(Trim(e.revision) != "" && Revision(revisions, EntryKey(lower, e)) == Trim(e.revision))
  }

  function TriggerOf(e: Entry, source: string): Trigger {
    Trigger(Trim(e.resource), Trim(e.variant), Trim(e.revision), source)
  }

  lemma TriggerKey(lower: char -> char, e: Entry, source: string)
    ensures KeyOf(lower, TriggerOf(e, source)) == EntryKey(lower, e)
    ensures Trim(TriggerOf(e, source).revision) == Trim(e.revision)
  {
    TrimIsTrimmed(e.resource);
    TrimIsTrimmed(e.variant);
    TrimIsTrimmed(e.revision);
  }

  /// enqueue: the locked region and, for a new key, the select
  function EnqueueAndSend(lower: char -> char, s: State, t: Trigger): State {
    var q := Apply(lower, s, Enqueue(t));
    if |q.unsent| > |s.unsent| then Apply(lower, q, Send(|q.unsent| - 1)) else q
  }

  /// One turn of the loop of reconcileFromManifest
  function ReconcileOne(lower: char -> char, s: State, e: Entry, source: string): State {
    if Wanted(lower, s.revisions, e) then EnqueueAndSend(lower, s, TriggerOf(e, source)) else s
  }

  function Reconcile(lower: char -> char, s: State, entries: seq<Entry>, source: string): State {
    if entries == [] then s
    else ReconcileOne(lower, Reconcile(lower, s, entries[..|entries| - 1], source), entries[|entries| - 1], source)
  }

  lemma ReconcileStep(lower: char -> char, s: State, entries: seq<Entry>, source: string, i: nat)
    requires i < |entries|
    ensures Reconcile(lower, s, entries[..i + 1], source)
         == ReconcileOne(lower, Reconcile(lower, s, entries[..i], source), entries[i], source)
  {
    assert entries[..i + 1][..i] == entries[..i];
  }

  /// The trigger the loop enqueues for key k because of an entry, if any
  function WantedOne(
    lower: char -> char, revisions: map<string, string>, e: Entry, source: string, k: string): seq<Trigger>
  {
    if Wanted(lower, revisions, e) && EntryKey(lower, e) == k then [TriggerOf(e, source)] else []
  }

  function WantedReader(
    lower: char -> char, revisions: map<string, string>, source: string, k: string): Entry -> seq<Trigger>
  {
    (e: Entry) => WantedOne(lower, revisions, e, source, k)
  }

  /// The triggers the loop enqueues for key k
  function WantedFor(
    lower: char -> char, revisions: map<string, string>, entries: seq<Entry>, source: string, k: string): seq<Trigger>
  {
    Collect(WantedReader(lower, revisions, source, k), entries)
  }

  lemma EnqueueAndSendFields(lower: char -> char, s: State, t: Trigger)
    requires KeyOf(lower, t) != "|"
    ensures var s' := EnqueueAndSend(lower, s, t);
            && s'.history == s.history + [Queued(t)]
            && s'.revisions == s.revisions && s'.hand == s.hand && s'.working == s.working
  {
  }

  lemma EnqueueAndSendIs(lower: char -> char, s: State, t: Trigger, q: State)
    requires q == Apply(lower, s, Enqueue(t))
    ensures EnqueueAndSend(lower, s, t) == if |q.unsent| > |s.unsent| then Apply(lower, q, Send(|q.unsent| - 1)) else q
  {
  }

  lemma EnqueueAndSendInv(lower: char -> char, s: State, t: Trigger)
    requires Inv(lower, s)
    ensures Inv(lower, EnqueueAndSend(lower, s, t))
  {
    var q := Apply(lower, s, Enqueue(t));
    StepInv(lower, s, Enqueue(t));
    if |q.unsent| > |s.unsent| {
      StepInv(lower, q, Send(|q.unsent| - 1));
    }
    EnqueueAndSendIs(lower, s, t, q);
  }

  lemma {:induction false} ReconcileInv(lower: char -> char, s: State, entries: seq<Entry>, source: string)
    requires Inv(lower, s)
    ensures Inv(lower, Reconcile(lower, s, entries, source))
  {
    if entries != [] {
      var front, e := entries[..|entries| - 1], entries[|entries| - 1];
      ReconcileInv(lower, s, front, source);
      ReconcileOneInv(lower, Reconcile(lower, s, front, source), e, source);
    }
  }

  lemma ReconcileOneInv(lower: char -> char, s: State, e: Entry, source: string)
    requires Inv(lower, s)
    ensures Inv(lower, ReconcileOne(lower, s, e, source))
  {
    EnqueueAndSendInv(lower, s, TriggerOf(e, source));
  }

  /// A reconcile is a run: of triggers and their sends.
  lemma {:induction false} ReconcileReachable(
    lower: char -> char, revisions: map<string, string>, s: State, entries: seq<Entry>, source: string)
    requires Reachable(lower, revisions, s)
    ensures Reachable(lower, revisions, Reconcile(lower, s, entries, source))
  {
    if entries != [] {
      var front, e := entries[..|entries| - 1], entries[|entries| - 1];
      ReconcileReachable(lower, revisions, s, front, source);
      var before := Reconcile(lower, s, front, source);
      var t := TriggerOf(e, source);
      var q := Apply(lower, before, Enqueue(t));
      StepReachable(lower, revisions, before, Enqueue(t));
      if |q.unsent| > |before.unsent| {
        StepReachable(lower, revisions, q, Send(|q.unsent| - 1));
      }
      EnqueueAndSendIs(lower, before, t, q);
    }
  }

  /// From s to s' only `more` was queued for k, and nothing was taken or recorded.
  predicate OnlyQueued(lower: char -> char, s: State, s': State, k: string, more: seq<Trigger>) {
    && s'.revisions == s.revisions && s'.hand == s.hand && s'.working == s.working
    && Pending(lower, s'.history, k) == Pending(lower, s.history, k) + more
  }

  lemma OnlyQueuedTwice(lower: char -> char, s: State, m: State, s': State, k: string, a: seq<Trigger>, b: seq<Trigger>)
    requires OnlyQueued(lower, s, m, k, a) && OnlyQueued(lower, m, s', k, b)
    ensures OnlyQueued(lower, s, s', k, a + b)
  {
    assert Pending(lower, s.history, k) + a + b == Pending(lower, s.history, k) + (a + b);
  }

  lemma ReconcileOneFields(lower: char -> char, s: State, e: Entry, source: string, k: string)
    ensures OnlyQueued(lower, s, ReconcileOne(lower, s, e, source), k, WantedOne(lower, s.revisions, e, source, k))
  {
    if Wanted(lower, s.revisions, e) {
      TriggerKey(lower, e, source);
      EnqueuedPending(lower, s, TriggerOf(e, source), k);
    }
  }

  lemma {:induction false} ReconcileFields(
    lower: char -> char, s: State, entries: seq<Entry>, source: string, k: string)
    ensures OnlyQueued(lower, s, Reconcile(lower, s, entries, source), k,
            WantedFor(lower, s.revisions, entries, source, k))
  {
    if entries != [] {
      var front, e := entries[..|entries| - 1], entries[|entries| - 1];
      var before := Reconcile(lower, s, front, source);
      ReconcileFields(lower, s, front, source, k);
      ReconcileOneFields(lower, before, e, source, k);
      OnlyQueuedTwice(lower, s, before, ReconcileOne(lower, before, e, source), k,
                      WantedFor(lower, s.revisions, front, source, k), WantedOne(lower, s.revisions, e, source, k));
    }
  }

  lemma EnqueuedPending(lower: char -> char, s: State, t: Trigger, k: string)
    requires KeyOf(lower, t) != "|"
    ensures var s' := EnqueueAndSend(lower, s, t);
            && s'.revisions == s.revisions && s'.hand == s.hand && s'.working == s.working
            && Pending(lower, s'.history, k) == Pending(lower, s.history, k)
               + (if KeyOf(lower, t) == k then [t] else [])
  {
    EnqueueAndSendFields(lower, s, t);
    PendingQueued(lower, s.history, t, k);
  }

  /// A run without new triggers in which the sync of key k succeeds when `succeeds(k)`
  ghost predicate Drain(lower: char -> char, succeeds: string -> bool, s: State, es: seq<Event>, s': State)
    decreases |es|
  {
    if es == [] then s' == s
    else
      && Enabled(s, es[0]) && !es[0].Enqueue?
      && (es[0].Finish? ==> es[0].ok == succeeds(KeyOf(lower, s.working.value)))
      && Drain(lower, succeeds, Apply(lower, s, es[0]), es[1..], s')
  }

  /// Every reachable queue can be drained, whichever syncs succeed.
  lemma {:induction false} DrainExists(
    lower: char -> char, succeeds: string -> bool, s: State) returns (es: seq<Event>, s': State)
    requires Inv(lower, s)
    ensures Drain(lower, succeeds, s, es, s') && Inv(lower, s') && Idle(s')
    decreases Distance(s)
  {
    if Idle(s) {
      return [], s;
    }
    var e := NeverStuck(lower, s, s.working.Some? && succeeds(KeyOf(lower, s.working.value)));
    StepCloser(lower, s, e);
    StepInv(lower, s, e);
    var more, end := DrainExists(lower, succeeds, Apply(lower, s, e));
    es, s' := [e] + more, end;
    assert es[1..] == more;
  }

  /// The trigger that the take of k will work with, in a drain that starts at s0
  function WorkFor(lower: char -> char, s0: State, k: string): Trigger
    requires Pending(lower, s0.history, k) != []
  {
    var p := Pending(lower, s0.history, k);
    Effective(Coalesced(p), p[0])
  }

  predicate SameRevision(a: map<string, string>, b: map<string, string>, k: string) {
    (k in a <==> k in b) && (k in a ==> a[k] == b[k])
  }

  predicate SyncedTo(
    lower: char -> char, succeeds: string -> bool, s0: State, revisions: map<string, string>, k: string)
    requires Pending(lower, s0.history, k) != []
  {
    var revision := Trim(WorkFor(lower, s0, k).revision);
    if succeeds(k) && revision != "" then k in revisions && revisions[k] == revision
    else SameRevision(revisions, s0.revisions, k)
  }

  /// Where key k is in a drain that started at s0: still queued, being synced, synced, or not queued
  /// at the start.
  predicate OnItsWay(lower: char -> char, succeeds: string -> bool, s0: State, s: State, k: string) {
    var p0 := Pending(lower, s0.history, k);
    var inWork := s.working.Some? && KeyOf(lower, s.working.value) == k;
    if Pending(lower, s.history, k) != [] then
      !inWork && Pending(lower, s.history, k) == p0 && SameRevision(s.revisions, s0.revisions, k)
    else if inWork then
      p0 != [] && k != "|" && s.working.value == WorkFor(lower, s0, k) && SameRevision(s.revisions, s0.revisions, k)
    else if p0 != [] then SyncedTo(lower, succeeds, s0, s.revisions, k)
    else SameRevision(s.revisions, s0.revisions, k)
  }

  lemma WorkKey(lower: char -> char, s: State)
    requires Inv(lower, s) && s.hand.Some?
    ensures var k := KeyOf(lower, s.hand.value);
            var w := Apply(lower, s, Take).working.value;
            && Pending(lower, s.history, k) != [] && w == WorkFor(lower, s, k) && KeyOf(lower, w) == k
  {
    HandIsQueued(lower, s);
    WorkForKey(lower, s, KeyOf(lower, s.hand.value));
  }

  /// Where the hand is the first trigger pending and the queued one is what they coalesce to
  lemma WorkForKey(lower: char -> char, s: State, k: string)
    requires s.hand.Some? && k == KeyOf(lower, s.hand.value) && k in s.queuedByKey
    requires var p := Pending(lower, s.history, k); p != [] && p[0] == s.hand.value && s.queuedByKey[k] == Coalesced(p)
    ensures Apply(lower, s, Take).working.value == WorkFor(lower, s, k) && KeyOf(lower, WorkFor(lower, s, k)) == k
  {
    CoalescedKeepsLastRevision(Pending(lower, s.history, k));
  }

  lemma DrainTake(lower: char -> char, succeeds: string -> bool, s0: State, s: State, k: string)
    requires Inv(lower, s) && s.hand.Some? && OnItsWay(lower, succeeds, s0, s, k)
    ensures OnItsWay(lower, succeeds, s0, Apply(lower, s, Take), k)
  {
    WorkKey(lower, s);
    HandIsQueued(lower, s);
    PendingTaken(lower, s.history, KeyOf(lower, s.hand.value), Apply(lower, s, Take).working.value, k);
  }

  lemma DrainFinish(lower: char -> char, succeeds: string -> bool, s0: State, s: State, ok: bool, k: string)
    requires s.working.Some? && ok == succeeds(KeyOf(lower, s.working.value)) && OnItsWay(lower, succeeds, s0, s, k)
    ensures OnItsWay(lower, succeeds, s0, Apply(lower, s, Finish(ok)), k)
  {
    TrimIsTrimmed(s.working.value.revision);
  }

  lemma MoveFields(lower: char -> char, s: State, e: Event)
    requires Enabled(s, e) && (e.Send? || e.Unblock? || e.Receive?)
    ensures var s' := Apply(lower, s, e);
            s'.history == s.history && s'.working == s.working && s'.revisions == s.revisions
  {
  }

  lemma DrainStep(lower: char -> char, succeeds: string -> bool, s0: State, s: State, e: Event, k: string)
    requires Inv(lower, s) && Enabled(s, e) && !e.Enqueue?
    requires e.Finish? ==> e.ok == succeeds(KeyOf(lower, s.working.value))
    requires OnItsWay(lower, succeeds, s0, s, k)
    ensures OnItsWay(lower, succeeds, s0, Apply(lower, s, e), k)
  {
    match e {
      case Take => DrainTake(lower, succeeds, s0, s, k);
      case Finish(ok) => DrainFinish(lower, succeeds, s0, s, ok, k);
      case _ => MoveFields(lower, s, e);
    }
  }

  lemma {:induction false} DrainKey(
    lower: char -> char, succeeds: string -> bool, s0: State, s: State, es: seq<Event>, s': State, k: string)
    requires Inv(lower, s) && Drain(lower, succeeds, s, es, s') && OnItsWay(lower, succeeds, s0, s, k)
    ensures Inv(lower, s') && OnItsWay(lower, succeeds, s0, s', k)
    decreases |es|
  {
    if es != [] {
      StepInv(lower, s, es[0]);
      DrainStep(lower, succeeds, s0, s, es[0], k);
      DrainKey(lower, succeeds, s0, Apply(lower, s, es[0]), es[1..], s', k);
    }
  }

  /// Entries of one key carry one revision, and it is not blank.
  predicate Consistent(lower: char -> char, entries: seq<Entry>) {
    forall i, j | 0 <= i < |entries| && 0 <= j < |entries| && EntryKey(lower, entries[i]) != "|" ::
      && Trim(entries[i].revision) != ""
      && (EntryKey(lower, entries[i]) == EntryKey(lower, entries[j])
          ==> Trim(entries[i].revision) == Trim(entries[j].revision))
  }

  lemma WantedForRevisions(
    lower: char -> char, revisions: map<string, string>, entries: seq<Entry>, source: string, k: string,
    revision: string)
    requires forall i | 0 <= i < |entries| && EntryKey(lower, entries[i]) == k :: Trim(entries[i].revision) == revision
    ensures forall t | t in WantedFor(lower, revisions, entries, source, k) :: t.revision == revision
  {
    forall t | t in WantedFor(lower, revisions, entries, source, k) ensures t.revision == revision {
      var i := CollectedFrom(WantedReader(lower, revisions, source, k), entries, t);
    }
  }

  lemma SameWanted(lower: char -> char, revisions: map<string, string>, a: Entry, b: Entry)
    requires EntryKey(lower, a) == EntryKey(lower, b) && Trim(a.revision) == Trim(b.revision)
    ensures Wanted(lower, revisions, a) == Wanted(lower, revisions, b)
  {
  }

  /// With a consistent manifest, an entry's key is queued exactly when the entry is wanted.
  lemma WantedForIff(
    lower: char -> char, revisions: map<string, string>, entries: seq<Entry>, source: string, i: nat)
    requires i < |entries|
    requires forall j | 0 <= j < |entries| && EntryKey(lower, entries[j]) == EntryKey(lower, entries[i]) ::
               Trim(entries[j].revision) == Trim(entries[i].revision)
    ensures WantedFor(lower, revisions, entries, source, EntryKey(lower, entries[i])) != []
       <==> Wanted(lower, revisions, entries[i])
  {
    var f := WantedReader(lower, revisions, source, EntryKey(lower, entries[i]));
    CollectNoneIff(f, entries);
    assert Wanted(lower, revisions, entries[i]) ==> f(entries[i]) != [];
    forall j | 0 <= j < |entries| && !Wanted(lower, revisions, entries[i]) ensures f(entries[j]) == [] {
      if EntryKey(lower, entries[j]) == EntryKey(lower, entries[i]) {
        SameWanted(lower, revisions, entries[j], entries[i]);
      }
    }
  }

  lemma {:induction false} SameRevisionsCoalesce(ts: seq<Trigger>, revision: string)
    requires ts != [] && forall t | t in ts :: t.revision == revision
    ensures Coalesced(ts).revision == revision
  {
    if |ts| > 1 {
      SameRevisionsCoalesce(ts[..|ts| - 1], revision);
    }
  }

  /// So an entry's key is queued exactly when the entry is wanted, and then under its revision.
  lemma WantedForEntry(lower: char -> char, revisions: map<string, string>, entries: seq<Entry>, source: string, i: nat)
    requires Consistent(lower, entries) && i < |entries| && EntryKey(lower, entries[i]) != "|"
    ensures var ts := WantedFor(lower, revisions, entries, source, EntryKey(lower, entries[i]));
            && (ts != [] <==> Wanted(lower, revisions, entries[i]))
            && (ts != [] ==> Coalesced(ts).revision == Trim(entries[i].revision))
  {
    var e := entries[i];
    var ts := WantedFor(lower, revisions, entries, source, EntryKey(lower, e));
    WantedForIff(lower, revisions, entries, source, i);
    WantedForRevisions(lower, revisions, entries, source, EntryKey(lower, e), Trim(e.revision));
    if ts != [] {
      SameRevisionsCoalesce(ts, Trim(e.revision));
    }
  }

  /// What a drain leaves for key k
  lemma DrainResult(lower: char -> char, succeeds: string -> bool, s0: State, es: seq<Event>, s': State, k: string)
    requires Inv(lower, s0) && s0.working.None?
    requires Drain(lower, succeeds, s0, es, s') && Idle(s')
    ensures if Pending(lower, s0.history, k) == [] then SameRevision(s'.revisions, s0.revisions, k)
            else SyncedTo(lower, succeeds, s0, s'.revisions, k)
  {
    DrainKey(lower, succeeds, s0, s0, es, s', k);
    IdleIsEmpty(lower, s');
    assert KeyOk(lower, s'.queuedByKey, s'.history, k);
  }

  lemma IdleHasNothingPending(lower: char -> char, s: State, k: string)
    requires Inv(lower, s) && Idle(s)
    ensures Pending(lower, s.history, k) == []
  {
    IdleIsEmpty(lower, s);
    assert KeyOk(lower, s.queuedByKey, s.history, k);
  }

  lemma ReconciledPending(lower: char -> char, s: State, entries: seq<Entry>, source: string, k: string)
    requires Inv(lower, s) && Idle(s)
    ensures var s0 := Reconcile(lower, s, entries, source);
            && s0.working.None? && s0.revisions == s.revisions
            && Pending(lower, s0.history, k) == WantedFor(lower, s.revisions, entries, source, k)
  {
    ReconcileFields(lower, s, entries, source, k);
    IdleHasNothingPending(lower, s, k);
  }

  lemma EntryWork(lower: char -> char, s: State, entries: seq<Entry>, source: string, i: nat)
    requires Inv(lower, s) && Idle(s) && Consistent(lower, entries) && i < |entries|
    requires EntryKey(lower, entries[i]) != "|"
    ensures var s0, k := Reconcile(lower, s, entries, source), EntryKey(lower, entries[i]);
            && s0.working.None? && s0.revisions == s.revisions
            && (Pending(lower, s0.history, k) != [] <==> Wanted(lower, s.revisions, entries[i]))
            && (Pending(lower, s0.history, k) != [] ==> WorkFor(lower, s0, k).revision == Trim(entries[i].revision))
  {
    var k := EntryKey(lower, entries[i]);
    ReconciledPending(lower, s, entries, source, k);
    WantedForEntry(lower, s.revisions, entries, source, i);
    var ts := WantedFor(lower, s.revisions, entries, source, k);
    if ts != [] {
      WantedForRevisions(lower, s.revisions, entries, source, k, Trim(entries[i].revision));
      assert ts[0] in ts;
    }
  }

  lemma DrainedRevision(
    lower: char -> char, succeeds: string -> bool, s: State, entries: seq<Entry>, source: string,
    es: seq<Event>, s': State, i: nat)
    requires Inv(lower, s) && Idle(s) && Consistent(lower, entries) && i < |entries|
    requires EntryKey(lower, entries[i]) != "|"
    requires Drain(lower, succeeds, Reconcile(lower, s, entries, source), es, s') && Idle(s')
    ensures var k := EntryKey(lower, entries[i]);
            Revision(s'.revisions, k)
            == if Wanted(lower, s.revisions, entries[i]) && succeeds(k) then Trim(entries[i].revision)
               else Revision(s.revisions, k)
  {
    var s0 := Reconcile(lower, s, entries, source);
    ReconcileInv(lower, s, entries, source);
    EntryWork(lower, s, entries, source, i);
    DrainResult(lower, succeeds, s0, es, s', EntryKey(lower, entries[i]));
    TrimIsTrimmed(entries[i].revision);
  }

  /// After reconciling an idle queue with a consistent manifest and draining it, an entry is wanted
  /// again exactly when it was wanted and its key's sync failed. A failed key keeps its old revision.
  lemma ReconcileThenDrain(
    lower: char -> char, succeeds: string -> bool, s: State, entries: seq<Entry>, source: string,
    es: seq<Event>, s': State, i: nat)
    requires Inv(lower, s) && Idle(s) && Consistent(lower, entries) && i < |entries|
    requires Drain(lower, succeeds, Reconcile(lower, s, entries, source), es, s') && Idle(s')
    ensures Wanted(lower, s'.revisions, entries[i])
       <==> Wanted(lower, s.revisions, entries[i]) && !succeeds(EntryKey(lower, entries[i]))
    ensures var k := EntryKey(lower, entries[i]);
            k != "|" ==> Revision(s'.revisions, k)
                         == if succeeds(k) then Trim(entries[i].revision) else Revision(s.revisions, k)
  {
    var e := entries[i];
    var k := EntryKey(lower, e);
    if k != "|" {
      DrainedRevision(lower, succeeds, s, entries, source, es, s', i);
    }
  }

  /// Convergence: after a reconcile and a drain in which every sync succeeds, the next reconcile
  /// enqueues nothing exactly when the manifest is consistent.
  lemma ConvergesIffConsistent(
    lower: char -> char, s: State, entries: seq<Entry>, source: string, es: seq<Event>, s': State)
    requires Inv(lower, s) && Idle(s)
    requires Drain(lower, _ => true, Reconcile(lower, s, entries, source), es, s') && Idle(s')
    ensures (forall i | 0 <= i < |entries| :: !Wanted(lower, s'.revisions, entries[i])) <==> Consistent(lower, entries)
  {
    if Consistent(lower, entries) {
      forall i | 0 <= i < |entries| ensures !Wanted(lower, s'.revisions, entries[i]) {
        ReconcileThenDrain(lower, _ => true, s, entries, source, es, s', i);
      }
    }
  }

  // ---------------------------------------------------------------- how an update is lost

  /// A manifest entry with a variant and no resource
  function Bare(variant: string, revision: string): Entry {
    Entry("", variant, revision)
  }

  function BareTrigger(variant: string, revision: string, source: string): Trigger {
    TriggerOf(Bare(variant, revision), source)
  }

  lemma BareKey(lower: char -> char, variant: string, revision: string, source: string)
    requires Trim(variant) != ""
    ensures EntryKey(lower, Bare(variant, revision)) == Key(lower, "", variant) != "|"
    ensures KeyOf(lower, BareTrigger(variant, revision, source)) == Key(lower, "", variant)
    ensures BareTrigger(variant, revision, source).resource == ""
  {
    BlankIffAllSpace("");
    assert |Key(lower, "", variant)| > 1;
    TriggerKey(lower, Bare(variant, revision), source);
  }

  /// The state after the first entry, and after both
  predicate BareQueued(lower: char -> char, variant: string, source: string, s: State, first: string, queued: string) {
    && s.queue == [BareTrigger(variant, first, source)] && s.unsent == [] && s.blocked == []
    && s.hand.None? && s.working.None? && s.revisions == map[]
    && s.queuedByKey == map[Key(lower, "", variant) := BareTrigger(variant, queued, source)]
  }

  lemma FirstBare(lower: char -> char, variant: string, revision: string, source: string)
    requires Trim(variant) != "" && Trim(revision) != ""
    ensures var s := ReconcileOne(lower, Init(map[]), Bare(variant, revision), source);
            && BareQueued(lower, variant, source, s, revision, revision)
            && s.history == [Queued(BareTrigger(variant, revision, source))]
  {
    BareKey(lower, variant, revision, source);
    var t := BareTrigger(variant, revision, source);
    var q := Apply(lower, Init(map[]), Enqueue(t));
    assert q.unsent == [t];
    EnqueueAndSendIs(lower, Init(map[]), t, q);
  }

  lemma SecondBare(lower: char -> char, variant: string, s: State, first: string, second: string, source: string)
    requires Trim(variant) != "" && Trim(second) != "" && BareQueued(lower, variant, source, s, first, first)
    ensures var s' := ReconcileOne(lower, s, Bare(variant, second), source);
            && BareQueued(lower, variant, source, s', first, second)
            && s'.history == s.history + [Queued(BareTrigger(variant, second, source))]
  {
    BareKey(lower, variant, second, source);
    TrimIsTrimmed(second);
    var t := BareTrigger(variant, second, source);
    EnqueueAndSendIs(lower, s, t, Apply(lower, s, Enqueue(t)));
  }

  /// The consumer finds the queued resource blank and works with the token instead.
  lemma BareTaken(lower: char -> char, variant: string, s: State, first: string, second: string, source: string)
    returns (s': State)
    requires Trim(variant) != "" && Trim(first) != "" && BareQueued(lower, variant, source, s, first, second)
    ensures Run(lower, s, [] + [Receive] + [Take] + [Finish(true)], s') && Idle(s')
    ensures s'.revisions == map[Key(lower, "", variant) := Trim(first)]
  {
    BareKey(lower, variant, first, source);
    BareKey(lower, variant, second, source);
    BlankIffAllSpace("");
    TrimIsTrimmed(first);
    var s1 := Apply(lower, s, Receive);
    var s2 := Apply(lower, s1, Take);
    assert s2.working.Some? && s2.working.value == BareTrigger(variant, first, source);
    s' := Apply(lower, s2, Finish(true));
    RunAppend(lower, s, [], s, Receive);
    RunAppend(lower, s, [] + [Receive], s1, Take);
    RunAppend(lower, s, [] + [Receive] + [Take], s2, Finish(true));
  }

  lemma BothPending(
    lower: char -> char, variant: string, h: seq<Happening>, first: string, second: string, source: string)
    requires Trim(variant) != "" && Trim(second) != ""
    requires h == [Queued(BareTrigger(variant, first, source))] + [Queued(BareTrigger(variant, second, source))]
    ensures LastRevision(Pending(lower, h, Key(lower, "", variant))) == Trim(second)
  {
    BareKey(lower, variant, second, source);
    TrimIsTrimmed(second);
    var before := [Queued(BareTrigger(variant, first, source))];
    PendingQueued(lower, before, BareTrigger(variant, second, source), Key(lower, "", variant));
  }

  /// It happens: a manifest lists two revisions for a variant without a resource and is reconciled before
  /// the consumer comes. The consumer syncs once and records the first revision, not the last.
  lemma UpdateCanBeLost(lower: char -> char, variant: string, first: string, second: string, source: string)
    returns (es: seq<Event>, s: State)
    requires Trim(variant) != "" && Trim(first) != "" && Trim(second) != ""
    ensures var k := Key(lower, "", variant);
            var reconciled := Reconcile(lower, Init(map[]), [Bare(variant, first), Bare(variant, second)], source);
            && Reachable(lower, map[], reconciled) && Run(lower, reconciled, es, s) && Idle(s)
            && s.revisions == map[k := Trim(first)]
            && LastRevision(Pending(lower, reconciled.history, k)) == Trim(second)
  {
    var entries := [Bare(variant, first), Bare(variant, second)];
    ReconcileStep(lower, Init(map[]), entries, source, 0);
    ReconcileStep(lower, Init(map[]), entries, source, 1);
    assert entries[..0] == [] && entries[..2] == entries;
    var s1 := ReconcileOne(lower, Init(map[]), entries[0], source);
    var s2 := ReconcileOne(lower, s1, entries[1], source);
    FirstBare(lower, variant, first, source);
    SecondBare(lower, variant, s1, first, second, source);
    BothPending(lower, variant, s2.history, first, second, source);
    InitReachable(lower, map[]);
    ReconcileReachable(lower, map[], Init(map[]), entries, source);
    s := BareTaken(lower, variant, s2, first, second, source);
    es := [] + [Receive] + [Take] + [Finish(true)];
  }
}
