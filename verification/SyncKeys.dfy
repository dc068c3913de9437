/// What the key of the sync queue distinguishes (src/app/sync.go, syncResourceKey): which triggers are
/// ignored, which coalesce, and whose stored revision a manifest entry is compared with. The laws are about
/// resources and variants; the key itself is only a means to them.
module SyncKeys {
  import opened Text
  import opened Wrappers
  import opened Sync
  import opened SyncLaws

  /// The same resource and variant, up to surrounding blanks and case
  predicate SameTarget(lower: char -> char, t: Trigger, u: Trigger) {
    Agree(lower, t.resource, u.resource) && Agree(lower, t.variant, u.variant)
  }

  function Folded(lower: char -> char, s: string): string {
    ToLower(lower, Trim(s))
  }

  /// A piece and a bar that end the resource of u start the variant of t.
  ghost predicate BarMoves(lower: char -> char, t: Trigger, u: Trigger) {
    exists piece ::
      && Folded(lower, u.resource) == Folded(lower, t.resource) + "|" + piece
      && Folded(lower, t.variant) == piece + "|" + Folded(lower, u.variant)
  }

  ghost predicate Coalesce(lower: char -> char, t: Trigger, u: Trigger) {
    SameTarget(lower, t, u) || BarMoves(lower, t, u) || BarMoves(lower, u, t)
  }

  predicate Nameless(t: Trigger) {
    Trim(t.resource) == "" && Trim(t.variant) == ""
  }

  // ---------------------------------------------------------------- the key

  lemma ShorterFirst(r: string, v: string, r': string, v': string)
    requires r + "|" + v == r' + "|" + v' && |r| < |r'|
    ensures exists piece :: r' == r + "|" + piece && v == piece + "|" + v'
  {
    var key := r + "|" + v;
    var piece := r'[|r| + 1..];
    assert key[..|r'|] == r' && key[..|r|] == r && key[|r|] == '|' && key[|r| + 1..] == v;
    assert r'[..|r|] == r && r'[|r|] == '|';
    assert r' == r + "|" + piece;
    assert key == r + "|" + (piece + "|" + v');
    assert v == piece + "|" + v';
  }

  lemma SameLengthSame(r: string, v: string, r': string, v': string)
    requires r + "|" + v == r' + "|" + v' && |r| == |r'|
    ensures r == r' && v == v'
  {
    var key := r + "|" + v;
    assert key[..|r|] == r && key[..|r|] == r';
    assert key[|r| + 1..] == v && key[|r| + 1..] == v';
  }

  lemma MovedBarSameKey(r: string, v: string, r': string, v': string, piece: string)
    requires r' == r + "|" + piece && v == piece + "|" + v'
    ensures r + "|" + v == r' + "|" + v'
  {
  }

  lemma KeyIs(lower: char -> char, t: Trigger)
    ensures KeyOf(lower, t) == Folded(lower, t.resource) + "|" + Folded(lower, t.variant)
  {
  }

  lemma SameTargetIff(lower: char -> char, t: Trigger, u: Trigger)
    ensures SameTarget(lower, t, u)
       <==> && Folded(lower, t.resource) == Folded(lower, u.resource)
            && Folded(lower, t.variant) == Folded(lower, u.variant)
  {
    AgreeIff(lower, t.resource, u.resource);
    AgreeIff(lower, t.variant, u.variant);
  }

  lemma KeysAgreeIff(lower: char -> char, t: Trigger, u: Trigger)
    ensures KeyOf(lower, t) == KeyOf(lower, u) <==> Coalesce(lower, t, u)
  {
    KeyIs(lower, t);
    KeyIs(lower, u);
    SameTargetIff(lower, t, u);
    var r, v := Folded(lower, t.resource), Folded(lower, t.variant);
    var r', v' := Folded(lower, u.resource), Folded(lower, u.variant);
    if KeyOf(lower, t) == KeyOf(lower, u) {
      if |r| < |r'| {
        ShorterFirst(r, v, r', v');
      } else if |r| > |r'| {
        ShorterFirst(r', v', r, v);
      } else {
        SameLengthSame(r, v, r', v');
      }
    }
    if piece :| r' == r + "|" + piece && v == piece + "|" + v' {
      MovedBarSameKey(r, v, r', v', piece);
    }
    if piece :| r == r' + "|" + piece && v' == piece + "|" + v {
      MovedBarSameKey(r', v', r, v, piece);
    }
  }

  lemma NamelessIff(lower: char -> char, t: Trigger)
    ensures KeyOf(lower, t) == "|" <==> Nameless(t)
  {
    KeyIs(lower, t);
    assert |KeyOf(lower, t)| == |Trim(t.resource)| + 1 + |Trim(t.variant)|;
    if Nameless(t) {
      assert Folded(lower, t.resource) == "" && Folded(lower, t.variant) == "";
    }
  }

  /// Without bars in the resources, two triggers coalesce exactly when they name the same resource and variant.
  lemma WithoutBars(lower: char -> char, t: Trigger, u: Trigger)
    requires '|' !in Folded(lower, t.resource) && '|' !in Folded(lower, u.resource)
    ensures Coalesce(lower, t, u) <==> SameTarget(lower, t, u)
  {
    if piece :| Folded(lower, u.resource) == Folded(lower, t.resource) + "|" + piece {
      BarInside(Folded(lower, t.resource), piece);
    }
    if piece :| Folded(lower, t.resource) == Folded(lower, u.resource) + "|" + piece {
      BarInside(Folded(lower, u.resource), piece);
    }
  }

  lemma BarInside(r: string, piece: string)
    ensures '|' in r + "|" + piece
  {
    assert (r + "|" + piece)[|r|] == '|';
  }

  /// Trimming the fields does not change what a trigger names.
  lemma TrimmedNamesSame(lower: char -> char, t: Trigger, u: Trigger, v: Trigger)
    requires u.resource == Trim(t.resource) && u.variant == Trim(t.variant)
    ensures Coalesce(lower, v, u) <==> Coalesce(lower, v, t)
    ensures Nameless(u) <==> Nameless(t)
  {
    TrimIsTrimmed(t.resource);
    TrimIsTrimmed(t.variant);
    SameTargetIff(lower, v, t);
    SameTargetIff(lower, v, u);
    assert Folded(lower, u.resource) == Folded(lower, t.resource);
    assert Folded(lower, u.variant) == Folded(lower, t.variant);
  }

  // ---------------------------------------------------------------- the queue

  /// enqueue ignores a trigger exactly when it names neither a resource nor a variant.
  lemma IgnoredIff(lower: char -> char, s: State, t: Trigger)
    ensures Apply(lower, s, Enqueue(t)) == s <==> Nameless(t)
  {
    NamelessIff(lower, t);
    assert |s.history + [Queued(t)]| == |s.history| + 1;
  }

  lemma QueuedUnderKey(lower: char -> char, s: State, k: string)
    requires Inv(lower, s) && k in s.queuedByKey
    ensures KeyOf(lower, s.queuedByKey[k]) == k
  {
    assert KeyOk(lower, s.queuedByKey, s.history, k);
    CoalescedKeepsLastRevision(Pending(lower, s.history, k));
  }

  ghost predicate IsQueued(lower: char -> char, s: State, t: Trigger) {
    exists k | k in s.queuedByKey :: Coalesce(lower, s.queuedByKey[k], t)
  }

  lemma QueuedIff(lower: char -> char, s: State, t: Trigger)
    requires Inv(lower, s)
    ensures IsQueued(lower, s, t) <==> KeyOf(lower, t) in s.queuedByKey
  {
    forall k | k in s.queuedByKey ensures Coalesce(lower, s.queuedByKey[k], t) <==> KeyOf(lower, t) == k {
      QueuedUnderKey(lower, s, k);
      KeysAgreeIff(lower, s.queuedByKey[k], t);
    }
  }

  /// In every reachable state: a trigger with a name merges into a queued one exactly when one is queued that
  /// names the same resource and variant, or looks so because a bar moved; and it is queued afterwards.
  lemma MergesIff(lower: char -> char, revisions: map<string, string>, s: State, t: Trigger)
    requires Reachable(lower, revisions, s) && !Nameless(t)
    ensures var s' := Apply(lower, s, Enqueue(t));
            && IsQueued(lower, s', t)
            && (|s'.queuedByKey| == |s.queuedByKey| <==> IsQueued(lower, s, t))
            && (|s'.queuedByKey| == |s.queuedByKey| + 1 <==> !IsQueued(lower, s, t))
  {
    var s' := Apply(lower, s, Enqueue(t));
    ReachableInv(lower, revisions, s);
    StepInv(lower, s, Enqueue(t));
    NamelessIff(lower, t);
    QueuedIff(lower, s, t);
    QueuedIff(lower, s', t);
    SizeAfter(s.queuedByKey, KeyOf(lower, t), s'.queuedByKey[KeyOf(lower, t)]);
  }

  lemma SizeAfter(m: map<string, Trigger>, k: string, t: Trigger)
    ensures |m[k := t]| == if k in m then |m| else |m| + 1
  {
    var m' := m[k := t];
    assert |m'| == |m'.Keys| && |m| == |m.Keys|;
    assert m'.Keys == m.Keys + {k};
  }

  /// The same after the send, for the trigger with its fields trimmed, as pings and manifests enqueue it
  lemma SentIsQueued(lower: char -> char, revisions: map<string, string>, s: State, t: Trigger, named: Trigger)
    requires Reachable(lower, revisions, s) && !Nameless(named)
    requires t.resource == Trim(named.resource) && t.variant == Trim(named.variant)
    ensures IsQueued(lower, EnqueueAndSend(lower, s, t), named)
  {
    TrimmedNamesSame(lower, named, t, named);
    MergesIff(lower, revisions, s, t);
    var q := Apply(lower, s, Enqueue(t));
    EnqueueAndSendIs(lower, s, t, q);
    var k :| k in q.queuedByKey && Coalesce(lower, q.queuedByKey[k], t);
    TrimmedNamesSame(lower, named, t, q.queuedByKey[k]);
    assert EnqueueAndSend(lower, s, t).queuedByKey == q.queuedByKey;
  }

  // ---------------------------------------------------------------- the revisions

  function NameOf(e: Entry): Trigger {
    Trigger(e.resource, e.variant, e.revision, "")
  }

  /// With nothing stored, a manifest entry is wanted exactly when it names a resource or a variant.
  lemma WantedAtFirst(lower: char -> char, e: Entry)
    ensures Wanted(lower, map[], e) <==> !Nameless(NameOf(e))
  {
    NamelessIff(lower, NameOf(e));
  }

  /// After a successful sync of a named trigger with a revision: an entry that coalesces with it is wanted
  /// exactly when its revision is blank or another one; every other entry is wanted as before.
  lemma WantedAfterSyncIff(lower: char -> char, s: State, w: Trigger, e: Entry)
    requires s.working == Some(w) && Trim(w.revision) != "" && !Nameless(w)
    ensures Wanted(lower, Apply(lower, s, Finish(true)).revisions, e)
       <==> !Nameless(NameOf(e))
            && if Coalesce(lower, NameOf(e), w) then Trim(e.revision) == "" || Trim(e.revision) != Trim(w.revision)
               else Wanted(lower, s.revisions, e)
  {
    NamelessIff(lower, w);
    NamelessIff(lower, NameOf(e));
    KeysAgreeIff(lower, NameOf(e), w);
    TrimIsTrimmed(w.revision);
  }
}
