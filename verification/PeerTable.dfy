/// The table of known peers and the seed plan made from it (src/app/p2p.go), and the peers that are
/// left to be served (src/app/p2p_replication.go). Announcements, ticks and finished syncs come in any
/// order; OnResourceSynced reads the number of agents in one locked region and stores its plan in
/// another, so anything may happen in between.
module PeerTables {
  import opened Text
  import opened Wrappers
  import opened Clock
  import opened Seeds

  const PEER_TTL := 2 * MINUTE

  datatype Peer = Peer(agentID: string, address: string, port: int, source: string)

  datatype Known = Known(peer: Peer, lastSeen: int)

  datatype Table = Table(peers: map<string, Known>, peerArtifacts: map<string, seq<string>>, knownPeers: int)

  /// What a seed plan was made from
  datatype Planning = Planning(totalAgents: int, config: Config)

  /// The plan that the coordinator stores
  function PlanOf(made: Option<Planning>): SeedPlan {
    match made
    case None => NO_PLAN
    case Some(p) => BuildSeedPlan(p.totalAgents, p.config)
  }

  function PlannedAgents(made: Option<Planning>): int {
    match made
    case None => 0
    case Some(p) => p.totalAgents
  }

  datatype State = State(
    table: Table,
    planning: Option<Planning>, // of the stored plan
    estimates: seq<int>) // read by OnResourceSynced calls that have not stored their plan yet

  const NO_PEERS := Table(map[], map[], 0)
  const INIT := State(NO_PEERS, None, [])

  datatype Event =
    | Announce(peer: Peer, now: int)                     // upsertPeer
    | Catalogue(key: string, artifacts: seq<string>)     // a peer's artifact list arrives
    | Tick(now: int, config: Config)                     // discoveryTick
    | Estimate                                           // OnResourceSynced: currentAgentsEstimate
    | StorePlan(i: nat, config: Config)                  // OnResourceSynced: the i-th pending plan

  /// The key under which an announced peer is stored, or None when upsertPeer rejects it
  function KeyOf(lower: char -> char, peer: Peer): Option<string> {
    if Trim(peer.agentID) == "" || Trim(peer.address) == "" || peer.port <= 0 then None
    else Some(ToLower(lower, Trim(peer.agentID)))
  }

  predicate Alive(known: Known, now: int) {
    now - known.lastSeen <= PEER_TTL
  }

  /// Entries of peers that have been silent for too long
  function Silent(peers: map<string, Known>, now: int): set<string> {
    set k | k in peers && !Alive(peers[k], now)
  }

  function TableTick(t: Table, now: int): Table {
    var silent := Silent(t.peers, now);
    Table(t.peers - silent, t.peerArtifacts - silent, |t.peers - silent|)
  }

  function ApplyTable(keyOf: Peer -> Option<string>, t: Table, e: Event): Table {
    match e
    case Announce(peer, now) =>
      (match keyOf(peer)
       case None => t
       case Some(key) => Table(t.peers[key := Known(peer, now)], t.peerArtifacts, |t.peers[key := Known(peer, now)]|))
    case Catalogue(key, artifacts) => t.(peerArtifacts := t.peerArtifacts[key := artifacts])
    case Tick(now, config) =>
      if config.enabled then TableTick(t, now) else t
    case _ => t
  }

  function Apply(keyOf: Peer -> Option<string>, s: State, e: Event): State {
    var t := ApplyTable(keyOf, s.table, e);
    match e
    case Tick(_, config) =>
      if !config.enabled then s
      else State(t, Some(Planning(if PlannedAgents(s.planning) == 0 then 1 else t.knownPeers + 1, config)), s.estimates)
    case Estimate => s.(estimates := s.estimates + [t.knownPeers + 1])
    case StorePlan(i, config) =>
      if i >= |s.estimates| then s
      else State(t, Some(Planning(s.estimates[i], config)), s.estimates[..i] + s.estimates[i + 1..])
    case _ => s.(table := t)
  }

  /// The table after the events
  function TableAfter(keyOf: Peer -> Option<string>, es: seq<Event>): Table {
    if es == [] then NO_PEERS else ApplyTable(keyOf, TableAfter(keyOf, es[..|es| - 1]), es[|es| - 1])
  }

  // The run's laws hold for any way of making keys; KeyOf is the agent's.

  /// The state after the events
  function After(keyOf: Peer -> Option<string>, es: seq<Event>): (s: State)
    ensures s.table == TableAfter(keyOf, es)
  {
    if es == [] then INIT else Apply(keyOf, After(keyOf, es[..|es| - 1]), es[|es| - 1])
  }

  /// selectAutoDistributionPeers
  function Chosen(plan: SeedPlan, peers: seq<Peer>): seq<Peer> {
    var seeds := if plan.selectedSeeds - 1 > 0 then plan.selectedSeeds - 1 else 0;
    var leechers := |peers| - seeds;
    if leechers <= 0 then [] else peers[..if leechers > |peers| then |peers| else leechers]
  }

  // ---------------------------------------------------------------- invariants

  ghost predicate Counted(keyOf: Peer -> Option<string>, t: Table) {
    && t.knownPeers == |t.peers|
    && (forall k | k in t.peers :: keyOf(t.peers[k].peer) == Some(k))
  }

  ghost predicate Inv(keyOf: Peer -> Option<string>, s: State) {
    && Counted(keyOf, s.table)
    && (s.planning.Some? ==> s.planning.value.totalAgents >= 1)
    && (forall i | 0 <= i < |s.estimates| :: s.estimates[i] >= 1)
  }

  lemma StepCounted(keyOf: Peer -> Option<string>, t: Table, e: Event)
    requires Counted(keyOf, t)
    ensures Counted(keyOf, ApplyTable(keyOf, t, e))
  {
  }

  lemma StepInv(keyOf: Peer -> Option<string>, s: State, e: Event)
    requires Inv(keyOf, s)
    ensures Inv(keyOf, Apply(keyOf, s, e))
  {
    StepCounted(keyOf, s.table, e);
  }

  /// Over every run: knownPeers is the size of the table, every entry is under its own peer's key, so
  /// that no two are for agent ids that differ in case or surrounding space only, and a stored plan was
  /// made for at least one agent.
  lemma {:induction false} RunInv(keyOf: Peer -> Option<string>, es: seq<Event>)
    ensures Inv(keyOf, After(keyOf, es))
  {
    if es != [] {
      RunInv(keyOf, es[..|es| - 1]);
      StepInv(keyOf, After(keyOf, es[..|es| - 1]), es[|es| - 1]);
    }
  }

  // ---------------------------------------------------------------- who is in the table

  /// Event i announces the peer with key k.
  predicate Heard(keyOf: Peer -> Option<string>, es: seq<Event>, i: int, k: string) {
    0 <= i < |es| && es[i].Announce? && keyOf(es[i].peer) == Some(k)
  }

  /// Event j is a tick that finds an announcement made at `seen` too old.
  predicate Evicts(es: seq<Event>, j: int, seen: int) {
    0 <= j < |es| && es[j].Tick? && es[j].config.enabled && es[j].now - seen > 2 * MINUTE
  }

  /// Event i is the last announcement of k, and no later tick found it too old.
  ghost predicate StillHeard(keyOf: Peer -> Option<string>, es: seq<Event>, i: int, k: string) {
    && Heard(keyOf, es, i, k)
    && (forall j | i < j < |es| :: !Heard(keyOf, es, j, k) && !Evicts(es, j, es[i].now))
  }

  lemma StillHeardLater(keyOf: Peer -> Option<string>, es: seq<Event>, i: int, k: string)
    requires |es| > 0 && i < |es| - 1
    ensures StillHeard(keyOf, es, i, k) <==>
            && StillHeard(keyOf, es[..|es| - 1], i, k)
            && !Heard(keyOf, es, |es| - 1, k) && !Evicts(es, |es| - 1, es[i].now)
  {
    var front := es[..|es| - 1];
    assert forall j | 0 <= j < |front| :: front[j] == es[j];
    assert forall j | 0 <= j < |front| :: Heard(keyOf, front, j, k) == Heard(keyOf, es, j, k);
    if Heard(keyOf, es, i, k) {
      assert forall j | 0 <= j < |front| :: Evicts(front, j, es[i].now) == Evicts(es, j, es[i].now);
    }
  }

  /// What one event does to the entry of k
  lemma EntryStep(keyOf: Peer -> Option<string>, t: Table, es: seq<Event>, n: nat, k: string)
    requires n < |es|
    ensures var t' := ApplyTable(keyOf, t, es[n]);
            if Heard(keyOf, es, n, k) then k in t'.peers && t'.peers[k] == Known(es[n].peer, es[n].now)
            else if k in t.peers && !Evicts(es, n, t.peers[k].lastSeen) then k in t'.peers && t'.peers[k] == t.peers[k]
            else k !in t'.peers
  {
  }

  lemma StillHeardStep(keyOf: Peer -> Option<string>, es: seq<Event>, i: int, k: string)
    requires es != []
    ensures StillHeard(keyOf, es, i, k) <==>
            if Heard(keyOf, es, |es| - 1, k) then i == |es| - 1
            else StillHeard(keyOf, es[..|es| - 1], i, k) && !Evicts(es, |es| - 1, es[i].now)
  {
    if i < |es| - 1 {
      StillHeardLater(keyOf, es, i, k);
    }
  }

  /// A peer is in the table exactly when it was announced and no tick since its last announcement ran
  /// more than two minutes after it; the entry is then that announcement.
  lemma {:induction false} KnownIffHeard(keyOf: Peer -> Option<string>, es: seq<Event>, k: string)
    ensures var peers := TableAfter(keyOf, es).peers;
            && (k in peers <==> exists i :: StillHeard(keyOf, es, i, k))
            && (forall i | StillHeard(keyOf, es, i, k) :: k in peers && peers[k] == Known(es[i].peer, es[i].now))
  {
    if es != [] {
      var n := |es| - 1;
      KnownIffHeard(keyOf, es[..n], k);
      EntryStep(keyOf, TableAfter(keyOf, es[..n]), es, n, k);
      forall i ensures StillHeard(keyOf, es, i, k) <==>
            if Heard(keyOf, es, n, k) then i == n else StillHeard(keyOf, es[..n], i, k) && !Evicts(es, n, es[i].now) {
        StillHeardStep(keyOf, es, i, k);
      }
      if k in TableAfter(keyOf, es).peers {
        var i := if Heard(keyOf, es, n, k) then n else var i :| StillHeard(keyOf, es[..n], i, k); i;
        assert StillHeard(keyOf, es, i, k);
      }
    }
  }

  // ---------------------------------------------------------------- conservation

  /// Seeds and chosen peers add up to all agents exactly when the plan has at least one seed and no
  /// more seeds than there are agents now.
  lemma ConservedIff(plan: SeedPlan, peers: seq<Peer>)
    ensures plan.selectedSeeds + |Chosen(plan, peers)| == |peers| + 1 <==> 1 <= plan.selectedSeeds <= |peers| + 1
    ensures Chosen(plan, peers) <= peers
  {
  }

  /// Over every run the stored plan has the least number of seeds that is enough for its agents, and the
  /// sum is right whenever it was made for no more agents than there are now, in particular for all of
  /// them; without a plan yet, one agent is missing.
  lemma SeedsConserved(keyOf: Peer -> Option<string>, es: seq<Event>, peers: seq<Peer>)
    requires |peers| == |After(keyOf, es).table.peers|
    ensures var made := After(keyOf, es).planning;
            var plan := PlanOf(made);
            && plan.totalAgents == PlannedAgents(made)
            && (made.Some? ==>
                  && Enough(plan.selectedSeeds, plan.totalAgents, plan.configuredPercent, plan.minSeeds)
                  && forall k | Enough(k, plan.totalAgents, plan.configuredPercent, plan.minSeeds) ::
                       plan.selectedSeeds <= k)
            && (1 <= plan.totalAgents <= |peers| + 1 ==> plan.selectedSeeds + |Chosen(plan, peers)| == |peers| + 1)
            && (made.None? ==> plan.selectedSeeds + |Chosen(plan, peers)| == |peers|)
  {
    RunInv(keyOf, es);
    var made := After(keyOf, es).planning;
    if made.Some? {
      PlanIsLeast(made.value.totalAgents, made.value.config);
    }
    ConservedIff(PlanOf(made), peers);
  }

  lemma PlanIsLeast(totalAgents: int, config: Config)
    requires totalAgents >= 1
    ensures var plan := BuildSeedPlan(totalAgents, config);
            && plan.totalAgents == totalAgents && 1 <= plan.selectedSeeds <= totalAgents
            && Enough(plan.selectedSeeds, totalAgents, plan.configuredPercent, plan.minSeeds)
            && forall k :: Enough(k, totalAgents, plan.configuredPercent, plan.minSeeds) ==> plan.selectedSeeds <= k
  {
    var n := Normalize(config);
    SeedCountIsLeast(totalAgents, n.seedPercent, n.minSeeds);
  }

  /// A tick plans for the agents it found exactly when there was a plan before or it found no peer: the
  /// first plan of a run is made for one agent whatever the table holds.
  lemma TickPlansForAllIff(keyOf: Peer -> Option<string>, s: State, now: int, config: Config)
    requires Inv(keyOf, s) && config.enabled
    ensures var s' := Apply(keyOf, s, Tick(now, config));
            && s'.planning.Some?
            && (s'.planning.value.totalAgents == |s'.table.peers| + 1 <==> s.planning.Some? || s'.table.peers == map[])
  {
    var s' := Apply(keyOf, s, Tick(now, config));
    if |s'.table.peers| == 0 {
      assert s'.table.peers == map[];
    }
  }

  /// And it is, with a peer in the table.
  lemma FirstPlanForOne(keyOf: Peer -> Option<string>, peer: Peer, config: Config)
    requires keyOf(peer).Some? && config.enabled
    ensures var s := After(keyOf, [Announce(peer, 0), Tick(0, config)]);
            |s.table.peers| == 1 && s.planning == Some(Planning(1, config))
  {
    var s := Apply(keyOf, INIT, Announce(peer, 0));
    AfterTwo(keyOf, Announce(peer, 0), Tick(0, config));
    FirstTick(keyOf, s, keyOf(peer).value, Known(peer, 0), config);
  }

  lemma FirstTick(keyOf: Peer -> Option<string>, s: State, k: string, known: Known, config: Config)
    requires s.planning.None? && s.table.peers == map[k := known] && config.enabled
    ensures var s' := Apply(keyOf, s, Tick(known.lastSeen, config));
            s'.table.peers == map[k := known] && s'.planning == Some(Planning(1, config))
  {
    assert Silent(s.table.peers, known.lastSeen) == {} && s.table.peers - {} == s.table.peers;
  }

  lemma AfterTwo(keyOf: Peer -> Option<string>, a: Event, b: Event)
    ensures After(keyOf, [a, b]) == Apply(keyOf, Apply(keyOf, INIT, a), b)
  {
    AfterLast(keyOf, [], a);
    AfterLast(keyOf, [] + [a], b);
    assert [] + [a] + [b] == [a, b];
  }

  lemma AfterLast(keyOf: Peer -> Option<string>, es: seq<Event>, e: Event)
    ensures After(keyOf, es + [e]) == Apply(keyOf, After(keyOf, es), e)
  {
    assert (es + [e])[..|es|] == es;
  }

  lemma TickPlans(keyOf: Peer -> Option<string>, es: seq<Event>)
    requires es != [] && es[|es| - 1].Tick? && es[|es| - 1].config.enabled
    ensures var s := After(keyOf, es); 1 <= PlannedAgents(s.planning) <= |s.table.peers| + 1
  {
    RunInv(keyOf, es[..|es| - 1]);
  }

  /// Every tick ends with seeds and chosen peers adding up to the agents it found.
  lemma TickConserves(keyOf: Peer -> Option<string>, es: seq<Event>, peers: seq<Peer>)
    requires es != [] && es[|es| - 1].Tick? && es[|es| - 1].config.enabled
    requires |peers| == |After(keyOf, es).table.peers|
    ensures var plan := PlanOf(After(keyOf, es).planning); plan.selectedSeeds + |Chosen(plan, peers)| == |peers| + 1
  {
    TickPlans(keyOf, es);
    SeedsConserved(keyOf, es, peers);
  }

  /// From the second tick on, every tick leaves the plan for exactly the agents it found.
  lemma SecondTickPlansForAll(keyOf: Peer -> Option<string>, es: seq<Event>, i: int)
    requires 0 <= i < |es| - 1 && es[i].Tick? && es[i].config.enabled
    requires es[|es| - 1].Tick? && es[|es| - 1].config.enabled
    ensures var s := After(keyOf, es); s.planning == Some(Planning(|s.table.peers| + 1, es[|es| - 1].config))
  {
    var n := |es| - 1;
    PlanStays(keyOf, es[..n], i);
    RunInv(keyOf, es[..n]);
    TickPlansForAllIff(keyOf, After(keyOf, es[..n]), es[n].now, es[n].config);
  }

  lemma {:induction false} PlanStays(keyOf: Peer -> Option<string>, es: seq<Event>, i: int)
    requires 0 <= i < |es| && es[i].Tick? && es[i].config.enabled
    ensures After(keyOf, es).planning.Some?
  {
    if i < |es| - 1 {
      PlanStays(keyOf, es[..|es| - 1], i);
    }
  }

  // ---------------------------------------------------------------- the coordinator's fields

  class PeerTable {
    const lower: char -> char
    var peers: map<string, Known>
    var peerArtifacts: map<string, seq<string>>
    var knownPeers: int
    var currentSeedPlan: SeedPlan
    ghost var planning: Option<Planning>
    ghost var estimates: seq<int>

    ghost function Keys(): Peer -> Option<string> {
      (peer: Peer) => KeyOf(lower, peer)
    }

    ghost function View(): State
      reads this
    {
      State(Table(peers, peerArtifacts, knownPeers), planning, estimates)
    }

    ghost predicate Valid()
      reads this
    {
      knownPeers == |peers| && currentSeedPlan.totalAgents == PlannedAgents(planning)
    }

    constructor (lower: char -> char)
      ensures View() == INIT && Valid() && this.lower == lower
    {
      this.lower := lower;
      peers, peerArtifacts, knownPeers, currentSeedPlan, planning, estimates := map[], map[], 0, NO_PLAN, None, [];
    }

    method UpsertPeer(peer: Peer, now: int) returns (isNew: bool)
      requires Valid()
      modifies this`peers, this`knownPeers
      ensures Valid() && View() == Apply(Keys(), old(View()), Announce(peer, now))
      ensures isNew <==> peers.Keys != old(peers).Keys
    {
      if Trim(peer.agentID) == "" {
        return false;
      }
      if Trim(peer.address) == "" || peer.port <= 0 {
        return false;
      }
      var key := ToLower(lower, Trim(peer.agentID));
      var existed := key in peers;
      peers := peers[key := Known(peer, now)];
      knownPeers := |peers|;
      return !existed;
    }

    /// The loop of discoveryTick. The order in which the entries are visited is open, as it is for a Go map.
    method DropSilent(now: int)
      modifies this`peers, this`peerArtifacts
      ensures peers == old(peers) - Silent(old(peers), now)
      ensures peerArtifacts == old(peerArtifacts) - Silent(old(peers), now)
    {
      ghost var silent := Silent(peers, now);
      ghost var dropped := {};
      var unseen := peers.Keys;
      while unseen != {}
        invariant unseen <= old(peers).Keys && dropped == silent - unseen
        invariant peers == old(peers) - dropped && peerArtifacts == old(peerArtifacts) - dropped
        decreases unseen
      {
        var key :| key in unseen;
        unseen := unseen - {key};
        if now - peers[key].lastSeen > PEER_TTL {
          peers := peers - {key};
          peerArtifacts := peerArtifacts - {key};
          dropped := dropped + {key};
        }
      }
      assert dropped == silent;
    }

    method CountAfterDrop(now: int)
      modifies this`peers, this`peerArtifacts, this`knownPeers
      ensures Table(peers, peerArtifacts, knownPeers) == TableTick(old(Table(peers, peerArtifacts, knownPeers)), now)
    {
      DropSilent(now);
      knownPeers := |peers|;
    }

    method StorePlanFor(totalAgents: int, config: Config)
      modifies this`currentSeedPlan, this`planning
      ensures planning == Some(Planning(totalAgents, config))
      ensures currentSeedPlan == PlanOf(planning) && currentSeedPlan.totalAgents == totalAgents
    {
      currentSeedPlan, planning := BuildSeedPlan(totalAgents, config), Some(Planning(totalAgents, config));
    }

    method DiscoveryTick(now: int, config: Config)
      requires Valid()
      modifies this`peers, this`peerArtifacts, this`knownPeers, this`currentSeedPlan, this`planning
      ensures Valid() && View() == Apply(Keys(), old(View()), Tick(now, config))
      ensures if config.enabled then currentSeedPlan == PlanOf(planning) else currentSeedPlan == old(currentSeedPlan)
    {
      if !config.enabled {
        return;
      }
      CountAfterDrop(now);
      StorePlanFor(if currentSeedPlan.totalAgents == 0 then 1 else knownPeers + 1, config);
    }

    /// OnResourceSynced, first half
    method CurrentAgentsEstimate() returns (totalAgents: int)
      requires Valid()
      modifies this`estimates
      ensures Valid() && View() == Apply(Keys(), old(View()), Estimate) && estimates == old(estimates) + [totalAgents]
    {
      totalAgents := knownPeers + 1;
      estimates := estimates + [totalAgents];
    }

    /// OnResourceSynced, second half: `i` is the place of this call's estimate among the pending ones
    method StoreSeedPlan(totalAgents: int, config: Config, ghost i: nat)
      requires Valid() && i < |estimates| && estimates[i] == totalAgents
      modifies this`currentSeedPlan, this`planning, this`estimates
      ensures Valid() && View() == Apply(Keys(), old(View()), StorePlan(i, config))
      ensures currentSeedPlan == PlanOf(planning)
    {
      StorePlanFor(totalAgents, config);
      estimates := estimates[..i] + estimates[i + 1..];
    }
  }

  /// The peers that are left once this agent and the other seeds are taken out
  method SelectAutoDistributionPeers(plan: SeedPlan, peers: seq<Peer>) returns (chosen: seq<Peer>)
    ensures chosen == Chosen(plan, peers)
    ensures chosen <= peers
    ensures plan.selectedSeeds >= 1 ==> |chosen| == Clamp(|peers| + 1 - plan.selectedSeeds, 0, |peers|)
  {
    var leechers := |peers| - (if plan.selectedSeeds - 1 > 0 then plan.selectedSeeds - 1 else 0);
    if leechers <= 0 {
      return [];
    }
    if leechers > |peers| {
      leechers := |peers|;
    }
    return peers[..leechers];
  }
}
