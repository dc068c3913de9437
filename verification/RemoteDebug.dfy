/// Remote debug sessions (src/app/remote_debug.go): who owns a session between start, stop and
/// timeout calls that run at the same time. Every locked region is one step, and so is the stopping
/// that a caller does with the session it was handed.
module RemoteDebug {
  import opened Text
  import opened Wrappers
  import opened Clock

  const SESSION_CAP := HOUR

  /// computeRemoteDebugDeadline; `expiresAt` is None when the text is blank or no RFC 3339 time
  function ComputeDeadline(expiresAt: Option<int>, now: int): (deadline: int)
    ensures now <= deadline <= now + HOUR
    ensures expiresAt.None? ==> deadline == now + HOUR
    ensures expiresAt.Some? && now <= expiresAt.value <= now + HOUR ==> deadline == expiresAt.value
    ensures expiresAt.Some? && expiresAt.value < now ==> deadline == now
    ensures expiresAt.Some? && expiresAt.value > now + HOUR ==> deadline == now + HOUR
  {
    var cap := now + SESSION_CAP;
    match expiresAt
    case None => cap
    case Some(t) => if t < now then now else if t < cap then t else cap
  }

  /// What a session is started with. Sessions are told apart by their position, as pointers are.
  datatype Session = Session(sessionId: string, started: int, deadline: int)

  datatype State = State(
    sessions: seq<Session>,  // all sessions ever installed
    active: Option<nat>,
    handed: seq<nat>,        // handed to a caller that will stop them
    stopped: seq<nat>,       // stopGivenSession calls that have run
    timers: set<nat>)        // autoStopAtDeadline goroutines that wait, or that startSession is about to start

  datatype Event =
    | Install(sessionId: string, expiresAt: Option<int>, now: int) // startSession
    | Stop(wanted: string)                                         // stopSession
    | Timeout(timer: nat, at: int)                                 // autoStopAtDeadline's stopSession
    | FinishStop(i: nat)                                           // stopGivenSession by the i-th holder

  const INIT := State([], None, [], [], {})

  /// stopSession finds the active session under this id; a blank id finds any.
  predicate Finds(fold: char -> char, s: State, wanted: string) {
    s.active.Some? && s.active.value < |s.sessions| &&
    (Trim(wanted) == "" || EqualFold(fold, s.sessions[s.active.value].sessionId, Trim(wanted)))
  }

  function HandOver(s: State): State
    requires s.active.Some?
  {
    s.(active := None, handed := s.handed + [s.active.value])
  }

  function StopActive(fold: char -> char, s: State, wanted: string): State {
    if Finds(fold, s, wanted) then HandOver(s) else s
  }

  predicate Enabled(s: State, e: Event) {
    match e
    case Install(id, _, _) => Trim(id) != ""
    case Stop(_) => true
    case Timeout(t, at) => t in s.timers && t < |s.sessions| && at >= s.sessions[t].deadline
    case FinishStop(i) => i < |s.handed|
  }

  function Apply(fold: char -> char, s: State, e: Event): State
    requires Enabled(s, e)
  {
    match e
    case Install(id, expiresAt, now) =>
      var n := |s.sessions|;
      State(s.sessions + [Session(Trim(id), now, ComputeDeadline(expiresAt, now))], Some(n),
            if s.active.Some? then s.handed + [s.active.value] else s.handed, s.stopped, s.timers + {n})
    case Stop(wanted) => StopActive(fold, s, wanted)
    case Timeout(t, _) => StopActive(fold, s.(timers := s.timers - {t}), s.sessions[t].sessionId)
    case FinishStop(i) => s.(handed := s.handed[..i] + s.handed[i + 1..], stopped := s.stopped + [s.handed[i]])
  }

  ghost predicate Run(fold: char -> char, s: State, es: seq<Event>, s': State)
    decreases |es|
  {
    if es == [] then s' == s else Enabled(s, es[0]) && Run(fold, Apply(fold, s, es[0]), es[1..], s')
  }

  // ---------------------------------------------------------------- ownership

  /// In how many places session p is: active, handed over, stopped
  function Places(s: State, p: nat): nat {
    (if s.active == Some(p) then 1 else 0) + multiset(s.handed)[p] + multiset(s.stopped)[p]
  }

  ghost predicate Owned(s: State) {
    forall p: nat :: Places(s, p) == if p < |s.sessions| then 1 else 0
  }

  /// The active session's timer is still waiting, and started sessions keep within the cap.
  ghost predicate Timed(s: State) {
    && (s.active.Some? ==> s.active.value in s.timers && s.active.value < |s.sessions|)
    && (forall t | t in s.timers :: t < |s.sessions|)
    && (forall p | 0 <= p < |s.sessions| ::
          && Trim(s.sessions[p].sessionId) == s.sessions[p].sessionId != ""
          && s.sessions[p].started <= s.sessions[p].deadline <= s.sessions[p].started + SESSION_CAP)
  }

  lemma MovedAway(handed: seq<nat>, i: nat)
    requires i < |handed|
    ensures multiset(handed) == multiset(handed[..i] + handed[i + 1..]) + multiset{handed[i]}
  {
    assert handed == handed[..i] + [handed[i]] + handed[i + 1..];
  }

  lemma HandOverOwned(s: State)
    requires Owned(s) && s.active.Some?
    ensures Owned(HandOver(s))
  {
    forall p: nat ensures Places(HandOver(s), p) == Places(s, p) {
    }
  }

  lemma FinishStopOwned(fold: char -> char, s: State, i: nat)
    requires Owned(s) && i < |s.handed|
    ensures Owned(Apply(fold, s, FinishStop(i)))
  {
    MovedAway(s.handed, i);
    forall p: nat ensures Places(Apply(fold, s, FinishStop(i)), p) == Places(s, p) {
    }
  }

  /// The previous session is handed over, and the new one takes a place that no session had.
  lemma InstallOwned(fold: char -> char, s: State, e: Event)
    requires Owned(s) && Enabled(s, e) && e.Install?
    ensures Owned(Apply(fold, s, e))
  {
    var vacated := if s.active.Some? then HandOver(s) else s;
    if s.active.Some? {
      HandOverOwned(s);
    }
    var s' := Apply(fold, s, e);
    assert s'.handed == vacated.handed && s'.stopped == vacated.stopped;
    forall p: nat ensures Places(s', p) == if p < |s'.sessions| then 1 else 0 {
      assert Places(vacated, p) == if p < |s.sessions| then 1 else 0;
    }
  }

  lemma StepOwned(fold: char -> char, s: State, e: Event)
    requires Owned(s) && Enabled(s, e)
    ensures Owned(Apply(fold, s, e))
  {
    match e {
      case Install(_, _, _) => InstallOwned(fold, s, e);
      case FinishStop(i) => FinishStopOwned(fold, s, i);
      case Stop(wanted) =>
        if Finds(fold, s, wanted) {
          HandOverOwned(s);
        }
      case Timeout(t, _) =>
        var fired := s.(timers := s.timers - {t});
        assert Owned(fired) by {
          assert forall p: nat :: Places(fired, p) == Places(s, p);
        }
        if Finds(fold, fired, s.sessions[t].sessionId) {
          HandOverOwned(fired);
        }
    }
  }

  lemma StepTimed(fold: char -> char, s: State, e: Event)
    requires Timed(s) && Enabled(s, e)
    ensures Timed(Apply(fold, s, e))
  {
    if e.Install? {
      TrimIsTrimmed(e.sessionId);
    }
    if e.Timeout? && s.active == Some(e.timer) {
      assert Finds(fold, s.(timers := s.timers - {e.timer}), s.sessions[e.timer].sessionId);
    }
  }

  lemma {:induction false} RunOwned(fold: char -> char, s: State, es: seq<Event>, s': State)
    requires Owned(s) && Timed(s) && Run(fold, s, es, s')
    ensures Owned(s') && Timed(s')
    decreases |es|
  {
    if es != [] {
      StepOwned(fold, s, es[0]);
      StepTimed(fold, s, es[0]);
      RunOwned(fold, Apply(fold, s, es[0]), es[1..], s');
    }
  }

  /// Over every interleaving, every session ever installed is in exactly one place: active, with one
  /// caller that will stop it, or stopped. So it is stopped at most once, and a session that is neither
  /// active nor stopped has its stop pending.
  lemma OneOwner(fold: char -> char, es: seq<Event>, s: State, p: nat)
    requires Run(fold, INIT, es, s) && p < |s.sessions|
    ensures Places(s, p) == 1
    ensures multiset(s.stopped)[p] <= 1
    ensures s.active != Some(p) && p !in s.stopped ==> p in s.handed
  {
    RunOwned(fold, INIT, es, s);
    assert p in multiset(s.stopped) <==> p in s.stopped;
    assert p in multiset(s.handed) <==> p in s.handed;
  }

  /// When no stop is pending, every session but the active one has been stopped.
  lemma AllOthersStopped(fold: char -> char, es: seq<Event>, s: State, p: nat)
    requires Run(fold, INIT, es, s) && p < |s.sessions| && s.handed == []
    ensures s.active == Some(p) <==> p !in s.stopped
  {
    OneOwner(fold, es, s, p);
    assert p in multiset(s.stopped) <==> p in s.stopped;
  }

  /// No session outlives its time: while a session is active its own timer is waiting, no later than an
  /// hour after the start, and when it fires the session is handed over for stopping.
  lemma TimerGuardsSession(fold: char -> char, es: seq<Event>, s: State, p: nat, at: int)
    requires Run(fold, INIT, es, s) && s.active == Some(p)
    ensures p in s.timers && p < |s.sessions| && s.sessions[p].deadline <= s.sessions[p].started + SESSION_CAP
    ensures at >= s.sessions[p].deadline ==>
              Enabled(s, Timeout(p, at)) && Apply(fold, s, Timeout(p, at)) == HandOver(s.(timers := s.timers - {p}))
  {
    RunOwned(fold, INIT, es, s);
  }

  /// A timer ends the active session exactly when that session goes by the timer's own id.
  lemma TimeoutStopsIff(fold: char -> char, es: seq<Event>, s: State, t: nat, at: int)
    requires Run(fold, INIT, es, s) && Enabled(s, Timeout(t, at)) && s.active.Some?
    ensures s.active.value < |s.sessions|
    ensures Apply(fold, s, Timeout(t, at)).active.None?
       <==> EqualFold(fold, s.sessions[s.active.value].sessionId, s.sessions[t].sessionId)
  {
    RunOwned(fold, INIT, es, s);
  }

  lemma {:induction false} SessionsStay(fold: char -> char, s: State, es: seq<Event>, s': State)
    requires Run(fold, s, es, s')
    ensures s.sessions <= s'.sessions
    decreases |es|
  {
    if es != [] {
      SessionsStay(fold, Apply(fold, s, es[0]), es[1..], s');
    }
  }

  /// In every run a timer fires at its own session's deadline or later.
  lemma {:induction false} TimersWait(fold: char -> char, s: State, es: seq<Event>, s': State, k: nat)
    requires Run(fold, s, es, s') && k < |es| && es[k].Timeout?
    ensures es[k].timer < |s'.sessions| && es[k].at >= s'.sessions[es[k].timer].deadline
    decreases |es|
  {
    if k == 0 {
      SessionsStay(fold, s, es, s');
    } else {
      TimersWait(fold, Apply(fold, s, es[0]), es[1..], s', k - 1);
    }
  }

  /// So a session that is restarted under its old id is ended by the first timer, before its deadline.
  lemma StaleTimerEndsSuccessor(fold: char -> char, id: string, now: int) returns (es: seq<Event>, s: State)
    requires Trim(id) != ""
    ensures Run(fold, INIT, es, s) && |s.sessions| == 2 && s.sessions[1].sessionId == Trim(id)
    ensures s.active.None? && 1 in s.handed && |es| == 3 && es[2] == Timeout(0, s.sessions[0].deadline)
    ensures s.sessions[0].deadline < s.sessions[1].deadline
  {
    var first, second := Install(id, Some(now + 1), now), Install(id, None, now);
    var s1 := Apply(fold, INIT, first);
    var s2 := Apply(fold, s1, second);
    TrimIsTrimmed(id);
    assert s2.sessions[0].deadline == now + 1;
    var fire := Timeout(0, now + 1);
    s := Apply(fold, s2, fire);
    es := [first, second, fire];
    assert s.handed == [0, 1];
    assert es[2..] == [fire] && es[1..][1..] == es[2..];
    assert Run(fold, s2, es[2..], s);
    assert Run(fold, s1, es[1..], s);
  }

  // ---------------------------------------------------------------- the manager

  /// The caller that was handed a session last stops it at once.
  function StopLast(fold: char -> char, s: State): State
    requires s.handed != []
  {
    Apply(fold, s, FinishStop(|s.handed| - 1))
  }

  /// startSession when no other goroutine runs in between
  function Started(fold: char -> char, s: State, wanted: string, expiresAt: Option<int>, now: int): State
    requires Trim(wanted) != ""
  {
    var installed := Apply(fold, s, Install(wanted, expiresAt, now));
    if s.active.None? then installed else StopLast(fold, installed)
  }

  /// stopSession when no other goroutine runs in between
  function Ended(fold: char -> char, s: State, wanted: string): State {
    if Finds(fold, s, wanted) then StopLast(fold, Apply(fold, s, Stop(wanted))) else s
  }

  lemma StopLastKeeps(fold: char -> char, s: State)
    requires Owned(s) && Timed(s) && s.handed != []
    ensures var s' := StopLast(fold, s);
            && Owned(s') && Timed(s') && s'.sessions == s.sessions && s'.active == s.active
            && s'.stopped == s.stopped + [s.handed[|s.handed| - 1]]
  {
    StepOwned(fold, s, FinishStop(|s.handed| - 1));
    StepTimed(fold, s, FinishStop(|s.handed| - 1));
  }

  /// A session with its transports; closing is all that matters of them here.
  class LiveSession {
    const sessionId: string
    const deadline: int
    var subscribed: bool
    var cancelled: bool
    var closed: seq<bool>

    constructor (sessionId: string, deadline: int, publishers: nat)
      ensures this.sessionId == sessionId && this.deadline == deadline && subscribed && !cancelled
      ensures |closed| == publishers
    {
      this.sessionId, this.deadline := sessionId, deadline;
      subscribed, cancelled, closed := true, false, seq(publishers, _ => false);
    }

    ghost predicate Torn()
      reads this
    {
      !subscribed && cancelled && forall k | 0 <= k < |closed| :: closed[k]
    }
  }

  /// remoteDebugManager. The ghost fields remember the installed sessions and who owns them; the sessions
  /// that count as stopped are torn down.
  class Manager {
    const fold: char -> char
    var activeSession: LiveSession?

    ghost var sessions: seq<LiveSession>
    ghost var state: State

    ghost predicate Valid()
      reads this, sessions
    {
      && |sessions| == |state.sessions|
      && (forall p | 0 <= p < |sessions| ::
            sessions[p].sessionId == state.sessions[p].sessionId && sessions[p].deadline == state.sessions[p].deadline)
      && (if activeSession == null then state.active.None?
          else state.active.Some? && state.active.value < |sessions| && sessions[state.active.value] == activeSession)
      && (forall p | p in state.stopped :: p < |sessions| && sessions[p].Torn())
      && Owned(state) && Timed(state)
    }

    /// With no stop pending, every session but the active one is torn down.
    lemma OthersAreTorn()
      requires Valid() && state.handed == []
      ensures forall p | 0 <= p < |sessions| && state.active != Some(p) :: sessions[p].Torn()
    {
      forall p: nat | p < |sessions| && state.active != Some(p) ensures sessions[p].Torn() {
        assert Places(state, p) == 1;
        assert p in state.stopped;
      }
    }

    constructor (fold: char -> char)
      ensures Valid() && state == INIT && this.fold == fold
    {
      this.fold := fold;
      activeSession, sessions, state := null, [], INIT;
    }

    /// The locked region of startSession. The previous session is handed to the caller.
    method SwapIn(
      session: LiveSession, wanted: string, expiresAt: Option<int>, now: int) returns (previous: LiveSession?)
      requires Valid() && session.sessionId == Trim(wanted) != "" && session.deadline == ComputeDeadline(expiresAt, now)
      modifies this
      ensures Valid() && state == Apply(fold, old(state), Install(wanted, expiresAt, now))
      ensures activeSession == session && previous == old(activeSession) && sessions == old(sessions) + [session]
    {
      StepOwned(fold, state, Install(wanted, expiresAt, now));
      StepTimed(fold, state, Install(wanted, expiresAt, now));
      previous := activeSession;
      activeSession := session;
      state := Apply(fold, state, Install(wanted, expiresAt, now));
      sessions := sessions + [session];
    }

    /// The locked region of stopSession
    method TakeActive(wanted: string) returns (session: LiveSession?)
      requires Valid()
      modifies this
      ensures Valid() && state == Apply(fold, old(state), Stop(wanted)) && sessions == old(sessions)
      ensures session != null <==> Finds(fold, old(state), wanted)
      ensures session != null ==> session == old(activeSession) && activeSession == null
      ensures session == null ==> activeSession == old(activeSession)
    {
      var sessionId := Trim(wanted);
      session := activeSession;
      if session == null {
        return null;
      }
      if sessionId != "" && !EqualFold(fold, session.sessionId, sessionId) {
        return null;
      }
      StepOwned(fold, state, Stop(wanted));
      StepTimed(fold, state, Stop(wanted));
      activeSession := null;
      state := Apply(fold, state, Stop(wanted));
    }

    /// stopGivenSession: unsubscribe, cancel, close every transport
    static method StopGiven(session: LiveSession?)
      modifies session
      ensures session != null ==> session.Torn() && |session.closed| == old(|session.closed|)
    {
      if session == null {
        return;
      }
      session.subscribed := false;
      session.cancelled := true;
      for k := 0 to |session.closed|
        invariant |session.closed| == old(|session.closed|) && !session.subscribed && session.cancelled
        invariant forall j | 0 <= j < k :: session.closed[j]
      {
        session.closed := session.closed[k := true];
      }
    }

    /// startSession: whatever session was active is torn down once the new one is installed, and is from
    /// then on among the stopped ones.
    method StartSession(
      wanted: string, token: string, agentID: string, expiresAt: Option<int>, now: int, publishers: Option<nat>)
      returns (started: bool)
      requires Valid()
      modifies this, activeSession
      ensures Valid()
      ensures started <==> Trim(wanted) != "" && Trim(token) != "" && Trim(agentID) != "" && publishers.Some?
      ensures !started ==> state == old(state) && activeSession == old(activeSession)
      ensures started ==> state == Started(fold, old(state), wanted, expiresAt, now)
      ensures started ==> activeSession != null && fresh(activeSession)
      ensures started ==> activeSession.subscribed && !activeSession.cancelled
      ensures started && old(activeSession) != null ==>
                old(activeSession).Torn() && old(state).active.Some? && old(state).active.value in state.stopped
    {
      var sessionId := Trim(wanted);
      if sessionId == "" || Trim(token) == "" || Trim(agentID) == "" {
        return false;
      }
      var deadline := ComputeDeadline(expiresAt, now);
      if publishers.None? {
        return false;
      }
      var session := new LiveSession(sessionId, deadline, publishers.value);
      var previous := SwapIn(session, wanted, expiresAt, now);
      StopGiven(previous);
      if previous != null {
        StopLastKeeps(fold, state);
        state := StopLast(fold, state);
      }
      return true;
    }

    /// stopSession
    method StopSession(wanted: string) returns (found: bool)
      requires Valid()
      modifies this, activeSession
      ensures Valid() && state == Ended(fold, old(state), wanted)
      ensures found <==> Finds(fold, old(state), wanted)
      ensures found ==> activeSession == null && old(activeSession).Torn() && old(state).active.value in state.stopped
      ensures !found ==> activeSession == old(activeSession)
    {
      var session := TakeActive(wanted);
      if session == null {
        return false;
      }
      StopGiven(session);
      StopLastKeeps(fold, state);
      state := StopLast(fold, state);
      return true;
    }
  }
}
