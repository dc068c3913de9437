/// The one-way fallback between a session's transports (src/app/remote_debug.go, publishLoop and
/// publishWithFallback). Whether a transport accepts a message is up to the network.
module Fallback {
  import opened Text

  /// One call of Publish
  datatype Attempt = Attempt(transport: nat, sequence: nat, accepted: bool)

  /// A queued log line and which transports would accept it
  datatype Line = Line(message: string, accepts: seq<bool>)

  /// The loop's state. A transport is closed after the first failure on it.
  datatype State = State(activeIndex: nat, closed: seq<bool>, sequence: nat, attempts: seq<Attempt>)

  function Init(transports: nat): State {
    State(0, seq(transports, _ => false), 0, [])
  }

  /// The first transport from `from` on that accepts the line, or their number
  function FirstAccepting(accepts: seq<bool>, from: nat, transports: nat): (k: nat)
    requires from <= transports <= |accepts|
    ensures from <= k <= transports
    ensures forall j | from <= j < k :: !accepts[j]
    ensures k < transports ==> accepts[k]
    decreases transports - from
  {
    if from == transports || accepts[from] then from else FirstAccepting(accepts, from + 1, transports)
  }

  /// The attempts made for one message: failures on every transport before k, then an acceptance
  function AttemptsFor(from: nat, k: nat, transports: nat, sequence: nat): seq<Attempt>
    requires from <= k <= transports
    decreases k - from
  {
    if from == k then (if k < transports then [Attempt(k, sequence, true)] else [])
    else [Attempt(from, sequence, false)] + AttemptsFor(from + 1, k, transports, sequence)
  }

  predicate Fits(s: State) {
    s.activeIndex <= |s.closed|
  }

  /// One turn of the publish loop
  function Publish(s: State, line: Line): (s': State)
    requires Fits(s) && |s.closed| <= |line.accepts|
    ensures Fits(s') && |s'.closed| == |s.closed|
  {
    if Trim(line.message) == "" then s
    else
      var n := |s.closed|;
      var k := FirstAccepting(line.accepts, s.activeIndex, n);
      State(k, seq(n, j requires 0 <= j < n => s.closed[j] || s.activeIndex <= j < k), s.sequence + 1,
            s.attempts + AttemptsFor(s.activeIndex, k, n, s.sequence + 1))
  }

  function PublishAll(s: State, lines: seq<Line>): (s': State)
    requires Fits(s) && forall i | 0 <= i < |lines| :: |s.closed| <= |lines[i].accepts|
    ensures Fits(s') && |s'.closed| == |s.closed|
  {
    if lines == [] then s else Publish(PublishAll(s, lines[..|lines| - 1]), lines[|lines| - 1])
  }

  class PublishLoop {
    var activeIndex: nat
    var closed: seq<bool>
    var sequence: nat
    var attempts: seq<Attempt>

    ghost function View(): State
      reads this
    {
      State(activeIndex, closed, sequence, attempts)
    }

    constructor (transports: nat)
      ensures View() == Init(transports)
    {
      activeIndex, closed, sequence, attempts := 0, seq(transports, _ => false), 0, [];
    }

    /// publishWithFallback. The index of the loop never leaves activeIndex, so the branch that corrects
    /// activeIndex and logs "fallback aplicado" is dead.
    method PublishWithFallback(accepts: seq<bool>) returns (delivered: bool)
      requires Fits(View()) && |closed| <= |accepts|
      modifies this`activeIndex, this`closed, this`attempts
      ensures |closed| == old(|closed|)
      ensures activeIndex == FirstAccepting(accepts, old(activeIndex), |closed|)
      ensures forall j | 0 <= j < |closed| :: closed[j] == (old(closed)[j] || old(activeIndex) <= j < activeIndex)
      ensures attempts == old(attempts) + AttemptsFor(old(activeIndex), activeIndex, |closed|, sequence)
      ensures delivered <==> activeIndex < |closed|
    {
      var idx := activeIndex;
      ghost var k := FirstAccepting(accepts, activeIndex, |closed|);
      while idx < |closed|
        invariant idx == activeIndex && old(activeIndex) <= idx <= k && |closed| == old(|closed|)
        invariant FirstAccepting(accepts, idx, |closed|) == k
        invariant forall j | 0 <= j < |closed| :: closed[j] == (old(closed)[j] || old(activeIndex) <= j < idx)
        invariant attempts + AttemptsFor(idx, k, |closed|, sequence)
               == old(attempts) + AttemptsFor(old(activeIndex), k, |closed|, sequence)
        decreases |closed| - idx
      {
        assert idx != k ==>
          (attempts + AttemptsFor(idx, k, |closed|, sequence)
           == attempts + [Attempt(idx, sequence, false)] + AttemptsFor(idx + 1, k, |closed|, sequence));
        attempts := attempts + [Attempt(idx, sequence, accepts[idx])];
        if !accepts[idx] {
          closed := closed[idx := true];
          activeIndex := idx + 1;
          idx := idx + 1;
          continue;
        }
        if idx != activeIndex {
          assert false;
        }
        return true;
      }
      return false;
    }

    /// One line taken from the queue
    method PublishLine(line: Line)
      requires Fits(View()) && |closed| <= |line.accepts|
      modifies this
      ensures View() == Publish(old(View()), line)
    {
      if Trim(line.message) == "" {
        return;
      }
      sequence := sequence + 1;
      var delivered := PublishWithFallback(line.accepts);
    }

    /// publishLoop over the lines taken from the queue until the session is cancelled
    method Loop(lines: seq<Line>)
      requires Fits(View()) && forall i | 0 <= i < |lines| :: |closed| <= |lines[i].accepts|
      modifies this
      ensures View() == PublishAll(old(View()), lines)
    {
      for i := 0 to |lines|
        invariant Fits(View()) && |closed| == old(|closed|)
        invariant View() == PublishAll(old(View()), lines[..i])
      {
        assert lines[..i + 1][..i] == lines[..i];
        PublishLine(lines[i]);
      }
      assert lines[..|lines|] == lines;
    }
  }

  // ---------------------------------------------------------------- laws

  /// Later attempts are on the same or a later transport, never on one that failed; sequence numbers
  /// do not go back, and two accepted messages have different ones.
  predicate Ordered(a: Attempt, b: Attempt) {
    && a.transport <= b.transport && a.sequence <= b.sequence
    && (!a.accepted ==> a.transport < b.transport)
    && (a.accepted ==> a.sequence < b.sequence)
  }

  predicate InOrder(attempts: seq<Attempt>) {
    forall i, j | 0 <= i < j < |attempts| :: Ordered(attempts[i], attempts[j])
  }

  /// Every attempt is behind the loop's position.
  predicate Behind(a: Attempt, activeIndex: nat, sequence: nat) {
    a.transport <= activeIndex && a.sequence <= sequence && (!a.accepted ==> a.transport < activeIndex)
  }

  ghost predicate Inv(s: State) {
    && Fits(s) && InOrder(s.attempts)
    && (forall j | 0 <= j < |s.closed| :: s.closed[j] <==> j < s.activeIndex)
    && (forall i | 0 <= i < |s.attempts| ::
          Behind(s.attempts[i], s.activeIndex, s.sequence) && s.attempts[i].transport < |s.closed|)
  }

  lemma {:induction false} AttemptsInOrder(from: nat, k: nat, transports: nat, sequence: nat)
    requires from <= k <= transports
    ensures InOrder(AttemptsFor(from, k, transports, sequence))
    ensures forall a | a in AttemptsFor(from, k, transports, sequence) ::
              from <= a.transport < transports && a.sequence == sequence && Behind(a, k, sequence)
    decreases k - from
  {
    if from < k {
      AttemptsInOrder(from + 1, k, transports, sequence);
    }
  }

  lemma PublishInv(s: State, line: Line)
    requires Inv(s) && |s.closed| <= |line.accepts|
    ensures Inv(Publish(s, line)) && Publish(s, line).activeIndex >= s.activeIndex
  {
    if Trim(line.message) != "" {
      var n := |s.closed|;
      var k := FirstAccepting(line.accepts, s.activeIndex, n);
      var more := AttemptsFor(s.activeIndex, k, n, s.sequence + 1);
      AttemptsInOrder(s.activeIndex, k, n, s.sequence + 1);
      InOrderConcat(s.attempts, more, s.activeIndex, s.sequence);
      forall i | 0 <= i < |s.attempts + more|
        ensures Behind((s.attempts + more)[i], k, s.sequence + 1) && (s.attempts + more)[i].transport < n {
        if i >= |s.attempts| {
          assert (s.attempts + more)[i] in more;
        }
      }
    }
  }

  lemma InOrderConcat(old_: seq<Attempt>, more: seq<Attempt>, activeIndex: nat, sequence: nat)
    requires InOrder(old_) && InOrder(more)
    requires forall i | 0 <= i < |old_| :: Behind(old_[i], activeIndex, sequence)
    requires forall a | a in more :: activeIndex <= a.transport && a.sequence == sequence + 1
    ensures InOrder(old_ + more)
  {
    forall i, j | 0 <= i < j < |old_ + more| ensures Ordered((old_ + more)[i], (old_ + more)[j]) {
      if i < |old_| <= j {
        assert (old_ + more)[j] in more;
      }
    }
  }

  lemma {:induction false} PublishAllInv(s: State, lines: seq<Line>)
    requires Inv(s) && forall i | 0 <= i < |lines| :: |s.closed| <= |lines[i].accepts|
    ensures Inv(PublishAll(s, lines)) && PublishAll(s, lines).activeIndex >= s.activeIndex
  {
    if lines != [] {
      PublishAllInv(s, lines[..|lines| - 1]);
      PublishInv(PublishAll(s, lines[..|lines| - 1]), lines[|lines| - 1]);
    }
  }

  /// For every sequence of lines and every behaviour of the network: the active index stays within the
  /// transports, exactly the transports before it are closed, a transport that failed is never tried
  /// again, and the accepted messages carry strictly increasing sequence numbers.
  lemma FallbackIsOneWay(transports: nat, lines: seq<Line>)
    requires forall i | 0 <= i < |lines| :: transports <= |lines[i].accepts|
    ensures var s := PublishAll(Init(transports), lines);
            && s.activeIndex <= transports
            && (forall j | 0 <= j < transports :: s.closed[j] <==> j < s.activeIndex)
            && (forall i, j | 0 <= i < j < |s.attempts| && !s.attempts[i].accepted ::
                  s.attempts[i].transport < s.attempts[j].transport)
            && (forall i, j | 0 <= i < j < |s.attempts| && s.attempts[i].accepted && s.attempts[j].accepted ::
                  s.attempts[i].sequence < s.attempts[j].sequence)
  {
    PublishAllInv(Init(transports), lines);
    var s := PublishAll(Init(transports), lines);
    assert forall i, j | 0 <= i < j < |s.attempts| :: Ordered(s.attempts[i], s.attempts[j]);
  }

  /// The lines that take a number: all but the blank ones
  function Numbered(lines: seq<Line>): nat {
    if lines == [] then 0
    else Numbered(lines[..|lines| - 1]) + if Trim(lines[|lines| - 1].message) == "" then 0 else 1
  }

  /// Sequence numbers are given to the lines that are not blank, one each, in order: what is attempted for a
  /// line carries their count up to it, and a blank line changes nothing.
  lemma {:induction false} NumbersCountLines(transports: nat, lines: seq<Line>, line: Line)
    requires forall i | 0 <= i < |lines| :: transports <= |lines[i].accepts|
    requires transports <= |line.accepts|
    ensures var s := PublishAll(Init(transports), lines);
            && s.sequence == Numbered(lines)
            && (Trim(line.message) == "" ==> Publish(s, line) == s)
            && (Trim(line.message) != "" ==>
                  && s.attempts <= Publish(s, line).attempts
                  && forall i | |s.attempts| <= i < |Publish(s, line).attempts| ::
                       Publish(s, line).attempts[i].sequence == Numbered(lines) + 1)
  {
    if lines != [] {
      NumbersCountLines(transports, lines[..|lines| - 1], lines[|lines| - 1]);
    }
    var s := PublishAll(Init(transports), lines);
    var k := FirstAccepting(line.accepts, s.activeIndex, |s.closed|);
    LastAttempt(s.activeIndex, k, |s.closed|, s.sequence + 1);
    var more := AttemptsFor(s.activeIndex, k, |s.closed|, s.sequence + 1);
    assert forall i | 0 <= i < |more| :: more[i] in more;
  }

  /// A line is delivered exactly when it is not blank and some transport that is still open accepts it.
  lemma DeliveredIff(s: State, line: Line)
    requires Inv(s) && |s.closed| <= |line.accepts|
    ensures (exists a :: a in Publish(s, line).attempts && a.accepted && a.sequence == s.sequence + 1)
       <==> Trim(line.message) != "" && exists t :: s.activeIndex <= t < |s.closed| && line.accepts[t]
  {
    var n := |s.closed|;
    var k := FirstAccepting(line.accepts, s.activeIndex, n);
    forall a | a in s.attempts ensures a.sequence <= s.sequence {
      var i :| 0 <= i < |s.attempts| && s.attempts[i] == a;
      assert Behind(s.attempts[i], s.activeIndex, s.sequence);
    }
    LastAttempt(s.activeIndex, k, n, s.sequence + 1);
  }

  lemma {:induction false} LastAttempt(from: nat, k: nat, transports: nat, sequence: nat)
    requires from <= k <= transports
    ensures (exists a :: a in AttemptsFor(from, k, transports, sequence) && a.accepted) <==> k < transports
    ensures forall a | a in AttemptsFor(from, k, transports, sequence) :: a.sequence == sequence
    decreases k - from
  {
    if from < k {
      LastAttempt(from + 1, k, transports, sequence);
      if k < transports {
        var a :| a in AttemptsFor(from + 1, k, transports, sequence) && a.accepted;
        assert a in AttemptsFor(from, k, transports, sequence);
      }
    } else if k < transports {
      assert Attempt(k, sequence, true) in AttemptsFor(from, k, transports, sequence);
    }
  }
}
