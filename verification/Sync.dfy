/// The sync coordinator (src/app/sync.go): a work queue that coalesces triggers by key. Triggers come
/// from pings and manifest polls on any goroutine; one consumer takes them. Every locked region and
/// every channel operation is one step.
module Sync {
  import opened Text
  import opened Wrappers

  const QUEUE_SIZE := 64

  datatype Trigger = Trigger(resource: string, variant: string, revision: string, source: string)

  /// syncResourceKey
  function Key(lower: char -> char, resource: string, variant: string): string {
    ToLower(lower, Trim(resource)) + "|" + ToLower(lower, Trim(variant))
  }

  function KeyOf(lower: char -> char, t: Trigger): string {
    Key(lower, t.resource, t.variant)
  }

  /// What happened to the queue so far: triggers put into `queuedByKey`, and triggers the consumer
  /// took out to work with
  datatype Happening = Queued(trigger: Trigger) | Taken(key: string, work: Trigger)

  datatype State = State(
    queuedByKey: map<string, Trigger>,
    unsent: seq<Trigger>,        // queued, but the goroutine has not reached its select yet
    blocked: seq<Trigger>,       // the goroutines spawned because the channel was full
    queue: seq<Trigger>,         // the channel
    hand: Option<Trigger>,       // received by the consumer, which has not taken the lock yet
    working: Option<Trigger>,    // being synced
    revisions: map<string, string>,
    history: seq<Happening>)

  datatype Event =
    | Enqueue(trigger: Trigger)  // the locked region of enqueue
    | Send(i: nat)               // the select of enqueue
    | Unblock(i: nat)            // a spawned goroutine's send
    | Receive                    // the consumer's receive
    | Take                       // the locked region of processTrigger
    | Finish(ok: bool)           // the sync is over; on success the revision is recorded

  /// queuedByKey after another trigger for a key that is already queued
  function Merge(existing: Trigger, t: Trigger): Trigger {
    var revised := if Trim(t.revision) != "" then existing.(revision := t.revision) else existing;
    revised.(source := t.source)
  }

  /// The trigger processTrigger works with
  function Effective(queued: Trigger, token: Trigger): Trigger {
    if Blank(queued.resource) then token else queued
  }

  function Remove<T>(s: seq<T>, i: nat): seq<T>
    requires i < |s|
  {
    s[..i] + s[i + 1..]
  }

  predicate Enabled(s: State, e: Event) {
    match e
    case Enqueue(_) => true
    case Send(i) => i < |s.unsent|
    case Unblock(i) => i < |s.blocked| && |s.queue| < QUEUE_SIZE
    case Receive => s.hand.None? && s.working.None? && s.queue != []
    case Take => s.hand.Some?
    case Finish(_) => s.working.Some?
  }

  /// setRevision
  function SetRevision(
    lower: char -> char, revisions: map<string, string>, w: Trigger, revision: string): map<string, string>
  {
    if KeyOf(lower, w) == "|" then revisions else revisions[KeyOf(lower, w) := Trim(revision)]
  }

  function Apply(lower: char -> char, s: State, e: Event): State
    requires Enabled(s, e)
  {
    match e
    case Enqueue(t) =>
      var k := KeyOf(lower, t);
      if k == "|" then s
      else if k in s.queuedByKey then
        s.(queuedByKey := s.queuedByKey[k := Merge(s.queuedByKey[k], t)], history := s.history + [Queued(t)])
      else
        s.(queuedByKey := s.queuedByKey[k := t], unsent := s.unsent + [t], history := s.history + [Queued(t)])
    case Send(i) =>
      var sent := s.(unsent := Remove(s.unsent, i));
      if |s.queue| < QUEUE_SIZE then sent.(queue := s.queue + [s.unsent[i]])
      else sent.(blocked := s.blocked + [s.unsent[i]])
    case Unblock(i) => s.(blocked := Remove(s.blocked, i), queue := s.queue + [s.blocked[i]])
    case Receive => s.(hand := Some(s.queue[0]), queue := s.queue[1..])
    case Take =>
      var token := s.hand.value;
      var k := KeyOf(lower, token);
      var work := if k in s.queuedByKey then Effective(s.queuedByKey[k], token) else token;
      s.(queuedByKey := s.queuedByKey - {k}, hand := None, working := Some(work),
         history := s.history + [Taken(k, work)])
    case Finish(ok) =>
      var w := s.working.value;
      var done := s.(working := None);
      if ok && Trim(w.revision) != "" then done.(revisions := SetRevision(lower, s.revisions, w, Trim(w.revision)))
      else done
  }

  ghost predicate Run(lower: char -> char, s: State, es: seq<Event>, s': State)
    decreases |es|
  {
    if es == [] then s' == s else Enabled(s, es[0]) && Run(lower, Apply(lower, s, es[0]), es[1..], s')
  }

  function Init(revisions: map<string, string>): State {
    State(map[], [], [], [], None, None, revisions, [])
  }

  // ---------------------------------------------------------------- what is pending, by history

  /// The triggers queued for k since the consumer last took k
  function Pending(lower: char -> char, h: seq<Happening>, k: string): seq<Trigger> {
    if h == [] then []
    else
      var front := h[..|h| - 1];
      match h[|h| - 1]
      case Queued(t) => if KeyOf(lower, t) == k then Pending(lower, front, k) + [t] else Pending(lower, front, k)
      case Taken(k', _) => if k' == k then [] else Pending(lower, front, k)
  }

  /// The coalesced trigger of a burst
  function Coalesced(ts: seq<Trigger>): Trigger
    requires ts != []
  {
    if |ts| == 1 then ts[0] else Merge(Coalesced(ts[..|ts| - 1]), ts[|ts| - 1])
  }

  /// The last revision of a burst that is not blank, or ""
  function LastRevision(ts: seq<Trigger>): string {
    if ts == [] then ""
    else if Trim(ts[|ts| - 1].revision) != "" then Trim(ts[|ts| - 1].revision)
    else LastRevision(ts[..|ts| - 1])
  }

  /// Coalescing keeps the first resource and variant, the last non-blank revision and the last source.
  lemma {:induction false} CoalescedKeepsLastRevision(ts: seq<Trigger>)
    requires ts != []
    ensures Coalesced(ts).resource == ts[0].resource && Coalesced(ts).variant == ts[0].variant
    ensures Trim(Coalesced(ts).revision) == LastRevision(ts)
    ensures Coalesced(ts).source == ts[|ts| - 1].source
  {
    if |ts| > 1 {
      CoalescedKeepsLastRevision(ts[..|ts| - 1]);
    } else {
      assert ts[..0] == [];
    }
  }

  // ---------------------------------------------------------------- tokens

  function InHand(s: State): multiset<Trigger> {
    if s.hand.Some? then multiset{s.hand.value} else multiset{}
  }

  /// Every token on its way to the consumer's take
  function Tokens(s: State): multiset<Trigger> {
    multiset(s.unsent) + multiset(s.blocked) + multiset(s.queue) + InHand(s)
  }

  /// The token a key should have: the first trigger queued since the last take, once
  function Due(lower: char -> char, h: seq<Happening>, t: Trigger): nat {
    var p := Pending(lower, h, KeyOf(lower, t));
    if p != [] && p[0] == t then 1 else 0
  }

  predicate TokenOk(lower: char -> char, tokens: multiset<Trigger>, h: seq<Happening>, t: Trigger) {
    tokens[t] == Due(lower, h, t)
  }

  predicate KeyOk(lower: char -> char, queued: map<string, Trigger>, h: seq<Happening>, k: string) {
    var p := Pending(lower, h, k);
    if p == [] then k !in queued
    else k in queued && queued[k] == Coalesced(p) && KeyOf(lower, p[0]) == k && k != "|"
  }

  ghost predicate Matches(
    lower: char -> char, tokens: multiset<Trigger>, queued: map<string, Trigger>, h: seq<Happening>)
  {
    && (forall t: Trigger :: TokenOk(lower, tokens, h, t))
    && (forall k: string :: KeyOk(lower, queued, h, k))
    && |tokens| == |queued|
  }

  ghost predicate Inv(lower: char -> char, s: State) {
    && Matches(lower, Tokens(s), s.queuedByKey, s.history) && |s.queue| <= QUEUE_SIZE
    && (s.hand.None? || s.working.None?)
  }

  lemma InitInv(lower: char -> char, revisions: map<string, string>)
    ensures Inv(lower, Init(revisions))
  {
  }

  lemma MultisetRemove<T>(s: seq<T>, i: nat)
    requires i < |s|
    ensures multiset(s) == multiset(Remove(s, i)) + multiset{s[i]}
  {
    assert s == s[..i] + [s[i]] + s[i + 1..];
  }

  lemma PendingQueued(lower: char -> char, h: seq<Happening>, t: Trigger, k: string)
    ensures Pending(lower, h + [Queued(t)], k)
         == if KeyOf(lower, t) == k then Pending(lower, h, k) + [t] else Pending(lower, h, k)
  {
    assert (h + [Queued(t)])[..|h|] == h;
  }

  lemma PendingTaken(lower: char -> char, h: seq<Happening>, k': string, w: Trigger, k: string)
    ensures Pending(lower, h + [Taken(k', w)], k) == if k' == k then [] else Pending(lower, h, k)
  {
    assert (h + [Taken(k', w)])[..|h|] == h;
  }

  lemma CoalescedAppend(p: seq<Trigger>, t: Trigger)
    ensures Coalesced(p + [t]) == if p == [] then t else Merge(Coalesced(p), t)
  {
    assert (p + [t])[..|p|] == p;
  }

  lemma EnqueueKey(lower: char -> char, s: State, t: Trigger, k: string)
    requires KeyOf(lower, t) != "|" && KeyOk(lower, s.queuedByKey, s.history, k)
    ensures var s' := Apply(lower, s, Enqueue(t)); KeyOk(lower, s'.queuedByKey, s'.history, k)
  {
    var p := Pending(lower, s.history, k);
    PendingQueued(lower, s.history, t, k);
    CoalescedAppend(p, t);
  }

  lemma EnqueueToken(lower: char -> char, s: State, t: Trigger, u: Trigger)
    requires KeyOf(lower, t) != "|" && KeyOk(lower, s.queuedByKey, s.history, KeyOf(lower, t))
    requires TokenOk(lower, Tokens(s), s.history, u)
    ensures var s' := Apply(lower, s, Enqueue(t)); TokenOk(lower, Tokens(s'), s'.history, u)
  {
    PendingQueued(lower, s.history, t, KeyOf(lower, u));
    EnqueueTokens(lower, s, t);
  }

  lemma EnqueueTokens(lower: char -> char, s: State, t: Trigger)
    requires KeyOf(lower, t) != "|"
    ensures var s' := Apply(lower, s, Enqueue(t));
            if KeyOf(lower, t) in s.queuedByKey
            then Tokens(s') == Tokens(s) && s'.queuedByKey.Keys == s.queuedByKey.Keys
            else Tokens(s') == Tokens(s) + multiset{t} && s'.queuedByKey.Keys == s.queuedByKey.Keys + {KeyOf(lower, t)}
  {
  }

  lemma EnqueueInv(lower: char -> char, s: State, t: Trigger)
    requires Inv(lower, s) && KeyOf(lower, t) != "|"
    ensures Inv(lower, Apply(lower, s, Enqueue(t)))
  {
    var s' := Apply(lower, s, Enqueue(t));
    forall k ensures KeyOk(lower, s'.queuedByKey, s'.history, k) { EnqueueKey(lower, s, t, k); }
    forall u ensures TokenOk(lower, Tokens(s'), s'.history, u) { EnqueueToken(lower, s, t, u); }
    EnqueueTokens(lower, s, t);
    assert |s'.queuedByKey| == |s'.queuedByKey.Keys| && |s.queuedByKey| == |s.queuedByKey.Keys|;
  }

  predicate Moves(e: Event) {
    e.Send? || e.Unblock? || e.Receive? || e.Finish?
  }

  lemma MultisetAppend<T>(s: seq<T>, x: T)
    ensures multiset(s + [x]) == multiset(s) + multiset{x}
  {
  }

  lemma Shift<T>(u: multiset<T>, b: multiset<T>, q: multiset<T>, h: multiset<T>, x: T)
    ensures (u + multiset{x}) + b + q + h == u + b + (q + multiset{x}) + h
    ensures (u + multiset{x}) + b + q + h == u + (b + multiset{x}) + q + h
  {
  }

  lemma SendTokens(lower: char -> char, s: State, i: nat)
    requires i < |s.unsent|
    ensures Tokens(Apply(lower, s, Send(i))) == Tokens(s)
  {
    var x := s.unsent[i];
    MultisetRemove(s.unsent, i);
    if |s.queue| < QUEUE_SIZE {
      MultisetAppend(s.queue, x);
    } else {
      MultisetAppend(s.blocked, x);
    }
    Shift(multiset(Remove(s.unsent, i)), multiset(s.blocked), multiset(s.queue), InHand(s), x);
  }

  lemma UnblockTokens(lower: char -> char, s: State, i: nat)
    requires Enabled(s, Unblock(i))
    ensures Tokens(Apply(lower, s, Unblock(i))) == Tokens(s)
  {
    MultisetRemove(s.blocked, i);
    MultisetAppend(s.queue, s.blocked[i]);
  }

  lemma ReceiveTokens(lower: char -> char, s: State)
    requires Enabled(s, Receive)
    ensures Tokens(Apply(lower, s, Receive)) == Tokens(s)
  {
    MultisetRemove(s.queue, 0);
    assert Remove(s.queue, 0) == s.queue[1..];
  }

  /// A step that neither queues nor takes leaves the tokens, the map and the history as they are.
  lemma MoveKeeps(lower: char -> char, s: State, e: Event)
    requires Enabled(s, e) && Moves(e)
    ensures var s' := Apply(lower, s, e);
            && Tokens(s') == Tokens(s) && s'.queuedByKey == s.queuedByKey && s'.history == s.history
            && (|s.queue| <= QUEUE_SIZE ==> |s'.queue| <= QUEUE_SIZE)
            && (s.hand.None? || s.working.None? ==> s'.hand.None? || s'.working.None?)
  {
    match e {
      case Send(i) => SendTokens(lower, s, i);
      case Unblock(i) => UnblockTokens(lower, s, i);
      case Receive => ReceiveTokens(lower, s);
      case Finish(_) =>
    }
  }

  /// The token in the consumer's hand has its key queued.
  lemma HandIsQueued(lower: char -> char, s: State)
    requires Inv(lower, s) && s.hand.Some?
    ensures var k := KeyOf(lower, s.hand.value);
            var p := Pending(lower, s.history, k);
            p != [] && p[0] == s.hand.value && k in s.queuedByKey && s.queuedByKey[k] == Coalesced(p) && k != "|"
  {
    assert Tokens(s)[s.hand.value] >= 1;
    assert TokenOk(lower, Tokens(s), s.history, s.hand.value);
    assert KeyOk(lower, s.queuedByKey, s.history, KeyOf(lower, s.hand.value));
  }

  lemma TakeKey(lower: char -> char, s: State, k: string)
    requires s.hand.Some? && KeyOk(lower, s.queuedByKey, s.history, k)
    ensures var s' := Apply(lower, s, Take); KeyOk(lower, s'.queuedByKey, s'.history, k)
  {
    PendingTaken(lower, s.history, KeyOf(lower, s.hand.value), Apply(lower, s, Take).working.value, k);
  }

  lemma TakeTokens(lower: char -> char, s: State)
    requires s.hand.Some?
    ensures Tokens(s) == Tokens(Apply(lower, s, Take)) + multiset{s.hand.value}
  {
  }

  lemma TakeToken(lower: char -> char, s: State, u: Trigger)
    requires s.hand.Some? && TokenOk(lower, Tokens(s), s.history, u)
    requires Due(lower, s.history, s.hand.value) == 1
    ensures var s' := Apply(lower, s, Take); TokenOk(lower, Tokens(s'), s'.history, u)
  {
    PendingTaken(lower, s.history, KeyOf(lower, s.hand.value), Apply(lower, s, Take).working.value, KeyOf(lower, u));
    TakeTokens(lower, s);
  }

  lemma TakeInv(lower: char -> char, s: State)
    requires Inv(lower, s) && s.hand.Some?
    ensures Inv(lower, Apply(lower, s, Take))
  {
    HandIsQueued(lower, s);
    TakeTokens(lower, s);
    var s' := Apply(lower, s, Take);
    forall k ensures KeyOk(lower, s'.queuedByKey, s'.history, k) { TakeKey(lower, s, k); }
    forall u ensures TokenOk(lower, Tokens(s'), s'.history, u) { TakeToken(lower, s, u); }
    assert s.queuedByKey.Keys == s'.queuedByKey.Keys + {KeyOf(lower, s.hand.value)};
    assert |s'.queuedByKey| == |s'.queuedByKey.Keys| && |s.queuedByKey| == |s.queuedByKey.Keys|;
  }

  lemma StepInv(lower: char -> char, s: State, e: Event)
    requires Inv(lower, s) && Enabled(s, e)
    ensures Inv(lower, Apply(lower, s, e))
  {
    match e {
      case Enqueue(t) => if KeyOf(lower, t) != "|" { EnqueueInv(lower, s, t); }
      case Take => TakeInv(lower, s);
      case _ => MoveKeeps(lower, s, e);
    }
  }

  lemma {:induction false} RunInv(lower: char -> char, s: State, es: seq<Event>, s': State)
    requires Inv(lower, s) && Run(lower, s, es, s')
    ensures Inv(lower, s')
    decreases |es|
  {
    if es != [] {
      StepInv(lower, s, es[0]);
      RunInv(lower, Apply(lower, s, es[0]), es[1..], s');
    }
  }

  // ---------------------------------------------------------------- reachable states

  ghost predicate Reachable(lower: char -> char, revisions: map<string, string>, s: State) {
    exists es :: Run(lower, Init(revisions), es, s)
  }

  lemma InitReachable(lower: char -> char, revisions: map<string, string>)
    ensures Reachable(lower, revisions, Init(revisions))
  {
    assert Run(lower, Init(revisions), [], Init(revisions));
  }

  lemma {:induction false} RunAppend(lower: char -> char, s: State, es: seq<Event>, m: State, e: Event)
    requires Run(lower, s, es, m) && Enabled(m, e)
    ensures Run(lower, s, es + [e], Apply(lower, m, e))
    decreases |es|
  {
    if es == [] {
      assert es + [e] == [e];
    } else {
      RunAppend(lower, Apply(lower, s, es[0]), es[1..], m, e);
      assert (es + [e])[0] == es[0] && (es + [e])[1..] == es[1..] + [e];
    }
  }

  lemma StepReachable(lower: char -> char, revisions: map<string, string>, s: State, e: Event)
    requires Reachable(lower, revisions, s) && Enabled(s, e)
    ensures Reachable(lower, revisions, Apply(lower, s, e))
  {
    var es :| Run(lower, Init(revisions), es, s);
    RunAppend(lower, Init(revisions), es, s, e);
  }

  lemma ReachableInv(lower: char -> char, revisions: map<string, string>, s: State)
    requires Reachable(lower, revisions, s)
    ensures Inv(lower, s)
  {
    InitInv(lower, revisions);
    var es :| Run(lower, Init(revisions), es, s);
    RunInv(lower, Init(revisions), es, s);
  }

  /// The key of the token in hand was queued and no longer is; the consumer works with the burst queued
  /// under it, for a burst with a resource under its last revision that is not blank.
  predicate TookBurst(lower: char -> char, s: State, s': State)
    requires s.hand.Some?
  {
    var key := KeyOf(lower, s.hand.value);
    var burst := Pending(lower, s.history, key);
    && key in s.queuedByKey && key !in s'.queuedByKey && burst != []
    && s'.working == Some(Effective(Coalesced(burst), burst[0]))
    && (!Blank(burst[0].resource) ==> Trim(s'.working.value.revision) == LastRevision(burst))
  }

  /// In every reachable state a take finds its key.
  lemma TakeOutcome(lower: char -> char, revisions: map<string, string>, s: State)
    requires Reachable(lower, revisions, s) && s.hand.Some?
    ensures TookBurst(lower, s, Apply(lower, s, Take))
  {
    ReachableInv(lower, revisions, s);
    HandIsQueued(lower, s);
    TakesBurst(lower, s);
  }

  lemma TakesBurst(lower: char -> char, s: State)
    requires s.hand.Some?
    requires var k := KeyOf(lower, s.hand.value);
             var p := Pending(lower, s.history, k);
             p != [] && p[0] == s.hand.value && k in s.queuedByKey && s.queuedByKey[k] == Coalesced(p)
    ensures TookBurst(lower, s, Apply(lower, s, Take))
  {
    CoalescedKeepsLastRevision(Pending(lower, s.history, KeyOf(lower, s.hand.value)));
  }

  /// Over every interleaving: a key is queued exactly when one token for it is on its way, there are
  /// never two, and so the backlog is as large as the set of queued keys, however many triggers came.
  lemma OneTokenPerKey(lower: char -> char, revisions: map<string, string>, es: seq<Event>, s: State)
    requires Run(lower, Init(revisions), es, s)
    ensures forall k :: k in s.queuedByKey <==> exists t :: t in Tokens(s) && KeyOf(lower, t) == k
    ensures forall t :: Tokens(s)[t] <= 1
    ensures forall t, u :: t in Tokens(s) && u in Tokens(s) && KeyOf(lower, t) == KeyOf(lower, u) ==> t == u
    ensures |Tokens(s)| == |s.queuedByKey|
  {
    InitInv(lower, revisions);
    RunInv(lower, Init(revisions), es, s);
    forall k ensures k in s.queuedByKey <==> exists t :: t in Tokens(s) && KeyOf(lower, t) == k {
      QueuedHasToken(lower, s, k);
    }
    forall t ensures Tokens(s)[t] <= 1 {
      SameKeySameToken(lower, s, t, t);
    }
    forall t, u | t in Tokens(s) && u in Tokens(s) && KeyOf(lower, t) == KeyOf(lower, u) ensures t == u {
      SameKeySameToken(lower, s, t, u);
    }
  }

  lemma SameKeySameToken(lower: char -> char, s: State, t: Trigger, u: Trigger)
    requires Inv(lower, s)
    ensures Tokens(s)[t] <= 1
    ensures t in Tokens(s) && u in Tokens(s) && KeyOf(lower, t) == KeyOf(lower, u) ==> t == u
  {
    assert TokenOk(lower, Tokens(s), s.history, t) && TokenOk(lower, Tokens(s), s.history, u);
  }

  lemma QueuedHasToken(lower: char -> char, s: State, k: string)
    requires Inv(lower, s)
    ensures k in s.queuedByKey <==> exists t :: t in Tokens(s) && KeyOf(lower, t) == k
  {
    assert KeyOk(lower, s.queuedByKey, s.history, k);
    if k in s.queuedByKey {
      var t := Pending(lower, s.history, k)[0];
      assert TokenOk(lower, Tokens(s), s.history, t);
      assert t in Tokens(s);
    }
    if t :| t in Tokens(s) && KeyOf(lower, t) == k {
      assert TokenOk(lower, Tokens(s), s.history, t);
    }
  }
}
