/** How far a leader's commit index may pass what its followers hold: never past a follower
    it believes alive when it commits, and not at all while every target counts as alive. */
module CommitBound {
  import opened Types
  import opened RingLogs
  import opened Nodes
  import opened Consensus
  import opened Replication
  import opened CandidateRole
  import opened FollowerRole
  import opened LeaderRole
  import opened Cluster
  import opened Election
  import opened Safety

  // ---------- acknowledgements ----------

  // No match index passes what the target it speaks of holds.
  ghost predicate MatchBound(s: State, i: nat, matches: seq<int>) {
    forall lid :: 0 <= lid < |matches| ==>
      Peer(i, lid) < |s.nodes| && matches[lid] <= s.nodes[Peer(i, lid)].log.stableIdx
  }

  ghost predicate NodeMatches(s: State, i: nat) {
    && i < |s.nodes| && s.nodes[i].Shaped()
    && (s.nodes[i].role == Leader ==> MatchBound(s, i, s.nodes[i].matchIndex))
  }

  // Nor does an acknowledgement in flight pass what its sender holds.
  ghost predicate PacketAcks(s: State, p: Packet) {
    p.body.AppendReply? ==> p.src < |s.nodes| && p.body.stableIdx <= s.nodes[p.src].log.stableIdx
  }

  ghost predicate MatchInv(cfg: Config, s: State) {
    && SafetyInv(cfg, s)
    && (forall i :: 0 <= i < |s.nodes| ==> NodeMatches(s, i))
    && (forall p :: p in s.net ==> PacketAcks(s, p))
  }

  // No stable index moves back.
  ghost predicate StableGrows(s: State, s': State) {
    |s'.nodes| == |s.nodes| &&
    forall j :: 0 <= j < |s.nodes| ==> s.nodes[j].log.stableIdx <= s'.nodes[j].log.stableIdx
  }

  lemma ReassembleMatches(cfg: Config, s: State, s': State, i: nat)
    requires MatchInv(cfg, s) && SafetyInv(cfg, s') && i < |s.nodes|
    requires StableGrows(s, s')
    requires forall j :: 0 <= j < |s.nodes| && j != i ==> s'.nodes[j] == s.nodes[j]
    requires NodeMatches(s', i)
    requires forall p :: p in s'.net ==> p in s.net || PacketAcks(s', p)
    ensures MatchInv(cfg, s')
  {
    hide SafetyInv;
    forall j | 0 <= j < |s'.nodes|
      ensures NodeMatches(s', j)
    {
      assert NodeMatches(s, j);
    }
    forall p | p in s'.net
      ensures PacketAcks(s', p)
    {
      if p in s.net {
        assert PacketAcks(s, p);
      }
    }
  }

  lemma MatchFacts(cfg: Config, s: State, i: nat)
    requires MatchInv(cfg, s) && i < |s.nodes|
    ensures Shaped(cfg, s) && SafetyInv(cfg, s) && ElectionInv(cfg, s) && AtMostOneLeads(s)
    ensures NodeInv(cfg, i, s.nodes[i]) && NodeMatches(s, i) && NodeSafe(s.nodes[i], s.clientLog)
  {
  }

  lemma PacketFacts(cfg: Config, s: State, p: Packet)
    requires MatchInv(cfg, s) && p in s.net
    ensures PacketInv(cfg, p) && PacketSafe(s, p) && PacketAcks(s, p)
  {
  }

  lemma MatchesUntouched(n: Node)
    requires n.Shaped()
    ensures UpdateCommitIdx(n).Shaped() && UpdateCommitIdx(n).alive == n.alive
    ensures UpdateCommitIdx(n).matchIndex == n.matchIndex
  {
  }

  function Matched(n: Node, lid: nat, stableIdx: int): Node
    requires lid < |n.matchIndex|
  {
    n.(matchIndex := n.matchIndex[lid := stableIdx])
  }

  lemma AckMatches(s: State, i: nat, n: Node, lid: nat, b: Body)
    requires n.Shaped() && lid < n.NumTargets() && MatchBound(s, i, n.matchIndex)
    requires b.AppendReply? && b.stableIdx <= s.nodes[Peer(i, lid)].log.stableIdx
    ensures OnAppendReply(n, lid, b).Shaped() && MatchBound(s, i, OnAppendReply(n, lid, b).matchIndex)
  {
    hide UpdateCommitIdx;
    MatchesUntouched(Matched(n, lid, b.stableIdx));
  }

  lemma LeaderDeliverMatches(cfg: Config, s: State, p: Packet)
    requires MatchInv(cfg, s) && p in s.net && p.src < |s.nodes| && p.dst < |s.nodes| && p.src != p.dst
    requires s.nodes[p.dst].role == Leader && !p.body.Alive?
    ensures LidOf(p.dst, p.src) < s.nodes[p.dst].NumTargets() && s.nodes[p.dst].Shaped()
    ensures var n' := LeaderProcessPkt(s.nodes[p.dst], LidOf(p.dst, p.src), cfg.ids[p.src], p.body);
      n'.Shaped() && MatchBound(s, p.dst, n'.matchIndex)
  {
    var i, n, lid := p.dst, s.nodes[p.dst], LidOf(p.dst, p.src);
    hide MatchInv, SafetyInv, NodeSafe, NodeOk, MatchBound, OnAppendReply;
    MatchFacts(cfg, s, i);
    PacketFacts(cfg, s, p);
    if p.body.AppendReply? {
      assert Peer(i, lid) == p.src;
      AckMatches(s, i, n, lid, p.body);
    }
  }

  // ---------- steps ----------

  // A new leader knows of no acknowledgement.
  lemma WinnerMatches(cfg: Config, s: State, s': State, i: nat)
    requires MatchInv(cfg, s) && SafetyInv(cfg, s')
    requires i < |s.nodes| == |s'.nodes|
    requires s.nodes[i].Shaped() && s'.nodes[i] == AcceptVote(s.nodes[i])
    requires !Leads(s, i) && Leads(s', i)
    requires forall j :: 0 <= j < |s.nodes| && j != i ==> s'.nodes[j] == s.nodes[j]
    ensures NodeMatches(s', i)
  {
    hide MatchInv, SafetyInv, ElectionInv, NodeOk, NodeSafe;
    MatchFacts(cfg, s, i);
    SafeFacts(cfg, s');
    NewLeaderFindsNothing(cfg, s, s', i);
    var leader := s'.nodes[i];
    forall lid | 0 <= lid < |leader.matchIndex|
      ensures Peer(i, lid) < |s'.nodes| && leader.matchIndex[lid] <= s'.nodes[Peer(i, lid)].log.stableIdx
    {
      var j := Peer(i, lid);
      assert !Leads(s, j);
      StableAtLeastUnset(cfg, s, j);
    }
  }

  lemma DeliverNodeMatches(cfg: Config, s: State, p: Packet, retransIdx: int, accepts: nat)
    requires MatchInv(cfg, s) && Enabled(cfg, s, Deliver(p, retransIdx, accepts))
    requires AtMostOneLeads(OnDeliver(cfg, s, p, retransIdx, accepts))
    ensures var s' := OnDeliver(cfg, s, p, retransIdx, accepts);
      SafetyInv(cfg, s') && StableGrows(s, s') && NodeMatches(s', p.dst)
  {
    hide MatchInv, SafetyInv, ElectionInv, NodeSafe, LeaderProcessPkt, FollowerProcessPkt, CandidateProcessPkt;
    MatchFacts(cfg, s, p.dst);
    var i, n, lid, rid := p.dst, s.nodes[p.dst], LidOf(p.dst, p.src), cfg.ids[p.src];
    var s' := OnDeliver(cfg, s, p, retransIdx, accepts);
    PacketFacts(cfg, s, p);
    DeliverSafe(cfg, s, p, retransIdx, accepts);
    ProcessSafe(cfg, s, p, retransIdx, accepts);
    ProcessStep(n, lid, rid, p.body, retransIdx, accepts);
    hide NodeInv, ListsExact, EndTermBounded;
    assert StableGrows(s, s');
    if n.role == Leader {
      if p.body.Alive? {
        OneLeader(s, i, p.src);
      }
      LeaderDeliverMatches(cfg, s, p);
      assert s'.nodes[i] == LeaderProcessPkt(n, lid, rid, p.body);
    } else if s'.nodes[i].role == Leader {
      CandidateWinKeepsLog(n, lid, rid, p.body, retransIdx);
      WinnerMatches(cfg, s, s', i);
    }
  }

  lemma DeliverMatches(cfg: Config, s: State, p: Packet, retransIdx: int, accepts: nat)
    requires MatchInv(cfg, s) && Enabled(cfg, s, Deliver(p, retransIdx, accepts))
    requires AtMostOneLeads(OnDeliver(cfg, s, p, retransIdx, accepts))
    ensures var s' := OnDeliver(cfg, s, p, retransIdx, accepts);
      MatchInv(cfg, s') && StableGrows(s, s')
  {
    hide MatchInv, SafetyInv, Process, NodeMatches, NodeSafe;
    MatchFacts(cfg, s, p.dst);
    DeliverNodeMatches(cfg, s, p, retransIdx, accepts);
    ProcessSafe(cfg, s, p, retransIdx, accepts);
    ProcessReplies(cfg, s, p, retransIdx, accepts);
    ReassembleMatches(cfg, s, OnDeliver(cfg, s, p, retransIdx, accepts), p.dst);
  }

  // A heartbeat changes no log and makes no leader.
  lemma HeartbeatMatches(cfg: Config, s: State, i: nat)
    requires MatchInv(cfg, s) && Enabled(cfg, s, Heartbeat(i))
    requires AtMostOneLeads(OnHeartbeat(cfg, s, i))
    ensures MatchInv(cfg, OnHeartbeat(cfg, s, i)) && StableGrows(s, OnHeartbeat(cfg, s, i))
  {
    hide MatchInv, SafetyInv, UpdateLeader, NodeSafe;
    MatchFacts(cfg, s, i);
    HeartbeatSafe(cfg, s, i);
    HeartbeatStep(s.nodes[i]);
    ReassembleMatches(cfg, s, OnHeartbeat(cfg, s, i), i);
  }

  lemma LeaderWritesMatches(cfg: Config, s: State, i: nat, data: Chunk)
    requires MatchInv(cfg, s) && Enabled(cfg, s, ClientAppend(i, data))
    requires AtMostOneLeads(OnClientAppend(cfg, s, i, data))
    ensures MatchInv(cfg, OnClientAppend(cfg, s, i, data)) && StableGrows(s, OnClientAppend(cfg, s, i, data))
  {
    hide MatchInv, SafetyInv, LeaderLog, AppendCommand;
    MatchFacts(cfg, s, i);
    ClientAppendSafe(cfg, s, i, data);
    ClientAppendKeepsLog(s.nodes[i], data, s.clientLog);
    ReassembleMatches(cfg, s, OnClientAppend(cfg, s, i, data), i);
  }

  // The steps that change neither a log nor a match index.
  lemma QuietStepMatches(cfg: Config, s: State, step: Step)
    requires MatchInv(cfg, s) && Enabled(cfg, s, step)
    requires step.Poll? || step.DoWork? || step.SendAlive? || step.SetAlive?
    requires AtMostOneLeads(Apply(cfg, s, step))
    ensures MatchInv(cfg, Apply(cfg, s, step)) && StableGrows(s, Apply(cfg, s, step))
  {
    hide MatchInv, SafetyInv, ElectionInv, NodeSafe, CheckPending, PrepareLogReplication, ListsExact;
    MatchFacts(cfg, s, step.i);
    StepSafe(cfg, s, step);
    match step {
      case Poll(i, lid) => PollStep(s.nodes[i], lid);
      case DoWork(i, w) => WorkStep(s.nodes[i], w, cfg.maxPerPkt);
      case SendAlive(_, _) =>
      case SetAlive(_, _, _) =>
    }
    ReassembleMatches(cfg, s, Apply(cfg, s, step), step.i);
  }

  lemma StepMatches(cfg: Config, s: State, step: Step)
    requires MatchInv(cfg, s) && Enabled(cfg, s, step)
    requires AtMostOneLeads(Apply(cfg, s, step))
    ensures MatchInv(cfg, Apply(cfg, s, step)) && StableGrows(s, Apply(cfg, s, step))
  {
    hide MatchInv, StableGrows;
    match step
    case Deliver(p, retransIdx, accepts) => DeliverMatches(cfg, s, p, retransIdx, accepts);
    case Heartbeat(i) => HeartbeatMatches(cfg, s, i);
    case ClientAppend(i, data) => LeaderWritesMatches(cfg, s, i, data);
    case _ => QuietStepMatches(cfg, s, step);
  }

  lemma InitMatches(cfg: Config, s: State)
    requires Init(cfg, s)
    ensures MatchInv(cfg, s)
  {
    InitSafe(cfg, s);
    forall i | 0 <= i < |s.nodes|
      ensures NodeMatches(s, i)
    {
      assert InitNode(cfg, i, s.nodes[i]);
    }
  }

  lemma {:induction false} RunMatches(cfg: Config, run: seq<State>, t: nat)
    requires IsRun(cfg, run) && NeverTwoLead(run) && t < |run|
    ensures MatchInv(cfg, run[t])
  {
    hide MatchInv, Apply, Enabled;
    if t == 0 {
      InitMatches(cfg, run[0]);
    } else {
      RunMatches(cfg, run, t - 1);
      var step := StepAt(cfg, run, t);
      StepMatches(cfg, run[t - 1], step);
    }
  }

  // Over a run with a single leader no stable index ever moves back.
  lemma {:induction false} StableNeverShrinks(cfg: Config, run: seq<State>, t: nat, u: nat)
    requires IsRun(cfg, run) && NeverTwoLead(run) && t <= u < |run|
    ensures StableGrows(run[t], run[u])
    decreases u
  {
    hide IsRun, MatchInv, Apply, Enabled;
    if t < u {
      StableNeverShrinks(cfg, run, t, u - 1);
      RunMatches(cfg, run, u - 1);
      var step := StepAt(cfg, run, u);
      StepMatches(cfg, run[u - 1], step);
    }
  }

  // At every moment of a run with a single leader, whatever the failure detector says, what
  // the leader takes a follower to hold and what a follower has acknowledged, it does hold.
  lemma MatchesNeverOutrun(cfg: Config, run: seq<State>, t: nat)
    requires IsRun(cfg, run) && NeverTwoLead(run) && t < |run|
    ensures |run[t].nodes| == |cfg.ids|
    ensures forall i :: 0 <= i < |run[t].nodes| ==> NodeMatches(run[t], i)
    ensures forall p :: p in run[t].net ==> PacketAcks(run[t], p)
  {
    RunMatches(cfg, run, t);
  }

  // ---------- the moment of a commit ----------

  // Only an acknowledgement moves a leader's commit index.
  lemma CommitMovesOnAck(cfg: Config, s: State, step: Step, i: nat)
    requires MatchInv(cfg, s) && Enabled(cfg, s, step) && AtMostOneLeads(Apply(cfg, s, step))
    requires i < |s.nodes| && Leads(Apply(cfg, s, step), i)
    requires Apply(cfg, s, step).nodes[i].log.commitIdx != s.nodes[i].log.commitIdx
    ensures Leads(s, i) && step.Deliver? && step.p.dst == i && step.p.body.AppendReply? && step.p.body.success == 1
    ensures var lid := LidOf(i, step.p.src);
      lid < |s.nodes[i].matchIndex| && Matched(s.nodes[i], lid, step.p.body.stableIdx).Shaped()
      && Apply(cfg, s, step).nodes[i] == UpdateCommitIdx(Matched(s.nodes[i], lid, step.p.body.stableIdx))
  {
    hide MatchInv, SafetyInv, ElectionInv, NodeSafe, Process, UpdateLeader, CheckPending, PrepareLogReplication;
    hide UpdateCommitIdx, ListsExact, EndTermBounded;
    MatchFacts(cfg, s, i);
    match step
    case Deliver(p, retransIdx, accepts) => CommitMovesOnDelivery(cfg, s, p, retransIdx, accepts);
    case Heartbeat(k) => HeartbeatStep(s.nodes[k]);
    case Poll(k, lid) => PollStep(s.nodes[k], lid);
    case DoWork(k, w) => WorkStep(s.nodes[k], w, cfg.maxPerPkt);
    case SendAlive(_, _) =>
    case SetAlive(_, _, _) =>
    case ClientAppend(_, _) =>
  }


  lemma CommitMovesOnDelivery(cfg: Config, s: State, p: Packet, retransIdx: int, accepts: nat)
    requires MatchInv(cfg, s) && Enabled(cfg, s, Deliver(p, retransIdx, accepts))
    requires Leads(OnDeliver(cfg, s, p, retransIdx, accepts), p.dst)
    requires OnDeliver(cfg, s, p, retransIdx, accepts).nodes[p.dst].log.commitIdx != s.nodes[p.dst].log.commitIdx
    ensures Leads(s, p.dst) && p.body.AppendReply? && p.body.success == 1
    ensures var n, lid := s.nodes[p.dst], LidOf(p.dst, p.src);
      && lid < |n.matchIndex| && Matched(n, lid, p.body.stableIdx).Shaped()
      && OnDeliver(cfg, s, p, retransIdx, accepts).nodes[p.dst] == UpdateCommitIdx(Matched(n, lid, p.body.stableIdx))
  {
    hide MatchInv, SafetyInv, NodeSafe, UpdateCommitIdx, CandidateProcessPkt, FollowerProcessPkt;
    MatchFacts(cfg, s, p.dst);
    PacketFacts(cfg, s, p);
    var n, lid, rid := s.nodes[p.dst], LidOf(p.dst, p.src), cfg.ids[p.src];
    ProcessStep(n, lid, rid, p.body, retransIdx, accepts);
    if n.role == Candidate {
      CandidateWinKeepsLog(n, lid, rid, p.body, retransIdx);
    } else if p.body.Alive? {
      OneLeader(s, p.dst, p.src);
    }
  }

  ghost function Held(s: State, i: nat, lid: nat): int
    requires Peer(i, lid) < |s.nodes|
  {
    s.nodes[Peer(i, lid)].log.stableIdx
  }

  // A commit passes what a target holds if and only if the target is believed dead and some
  // qualifying match value lies above what it holds.
  ghost predicate OutrunsOnlyDead(s: State, i: nat, matched: Node, commitIdx: int)
    requires matched.Shaped()
  {
    forall k :: 0 <= k < matched.NumTargets() ==>
      Peer(i, k) < |s.nodes| &&
      (Held(s, i, k) < commitIdx <==>
        && !matched.alive[k]
        && exists j :: 0 <= j < matched.NumTargets() && Qualifies(matched, matched.matchIndex[j])
            && Held(s, i, k) < matched.matchIndex[j])
  }

  // The commit rule, run on match indices that no target is behind.
  lemma CommitIsHeld(s: State, i: nat, matched: Node)
    requires matched.Shaped() && matched.log.commitIdx >= -1 && MatchBound(s, i, matched.matchIndex)
    requires forall j :: 0 <= j < |s.nodes| && j != i ==> s.nodes[j].log.stableIdx >= -1
    requires UpdateCommitIdx(matched).log.commitIdx != matched.log.commitIdx
    ensures OutrunsOnlyDead(s, i, matched, UpdateCommitIdx(matched).log.commitIdx)
  {
    CommitRuleClosedForm(matched);
    var c := UpdateCommitIdx(matched).log.commitIdx;
    hide UpdateCommitIdx;
    assert Qualifies(matched, c);
    forall k | 0 <= k < matched.NumTargets()
      ensures Peer(i, k) < |s.nodes|
      ensures matched.alive[k] ==> c <= Held(s, i, k)
      ensures forall j :: 0 <= j < matched.NumTargets() && Qualifies(matched, matched.matchIndex[j]) ==>
        Held(s, i, k) < matched.matchIndex[j] ==> Held(s, i, k) < c
    {
      assert matched.matchIndex[k] <= Held(s, i, k) && Held(s, i, k) >= -1;
    }
  }

  // The leader's commit index moves between the moments t - 1 and t.
  ghost predicate CommitsAt(run: seq<State>, t: nat, i: nat) {
    && 0 < t < |run| && i < |run[t - 1].nodes| && Leads(run[t], i)
    && run[t].nodes[i].log.commitIdx != run[t - 1].nodes[i].log.commitIdx
  }

  lemma LeaderCommitAtLeastUnset(cfg: Config, s: State, i: nat)
    requires SafetyInv(cfg, s) && Leads(s, i)
    ensures -1 <= s.nodes[i].log.commitIdx < |s.clientLog|
    ensures forall j: nat :: j < |s.nodes| && j != i ==> s.nodes[j].log.stableIdx >= -1
  {
    assert NodeSafe(s.nodes[i], s.clientLog);
    forall j: nat | j < |s.nodes| && j != i
      ensures s.nodes[j].log.stableIdx >= -1
    {
      if Leads(s, j) {
        OneLeader(s, i, j);
      }
      StableAtLeastUnset(cfg, s, j);
    }
  }

  // Whenever the leader of a single-leader run commits, it does so on an acknowledgement, and
  // the new index is at most what every target believed alive holds; a target believed dead
  // is outrun exactly when a qualifying match value lies above what it holds.
  lemma CommitOutrunsOnlyDead(cfg: Config, run: seq<State>, t: nat, i: nat) returns (p: Packet)
    requires IsRun(cfg, run) && NeverTwoLead(run) && CommitsAt(run, t, i)
    ensures p in run[t - 1].net && p.dst == i && p.src != i && p.body.AppendReply? && p.body.success == 1
    ensures var n, lid := run[t - 1].nodes[i], LidOf(i, p.src);
      && n.Shaped() && lid < n.NumTargets() && Matched(n, lid, p.body.stableIdx).Shaped()
      && run[t].nodes[i] == UpdateCommitIdx(Matched(n, lid, p.body.stableIdx))
      && OutrunsOnlyDead(run[t], i, Matched(n, lid, p.body.stableIdx), run[t].nodes[i].log.commitIdx)
  {
    hide IsRun, MatchInv, SafetyInv, ElectionInv, NodeSafe, NodeOk, PacketSafe, UpdateCommitIdx, OutrunsOnlyDead;
    hide OnDeliver, OnHeartbeat, OnPoll, OnWork, OnClientAppend;
    RunMatches(cfg, run, t - 1);
    RunMatches(cfg, run, t);
    var s := run[t - 1];
    var step := StepAt(cfg, run, t);
    MatchFacts(cfg, s, i);
    MatchFacts(cfg, run[t], i);
    CommitMovesOnAck(cfg, s, step, i);
    p := step.p;
    PacketFacts(cfg, s, p);
    var matched := Matched(s.nodes[i], LidOf(i, p.src), p.body.stableIdx);
    assert Peer(i, LidOf(i, p.src)) == p.src;
    assert MatchBound(s, i, matched.matchIndex);
    StableNeverShrinks(cfg, run, t - 1, t);
    assert MatchBound(run[t], i, matched.matchIndex);
    LeaderCommitAtLeastUnset(cfg, s, i);
    LeaderCommitAtLeastUnset(cfg, run[t], i);
    CommitIsHeld(run[t], i, matched);
  }

  // The moment u at which the leader moved its commit index to c, believing target f dead.
  ghost predicate PresumedDead(run: seq<State>, u: nat, i: nat, f: nat, c: int) {
    && CommitsAt(run, u, i) && run[u].nodes[i].log.commitIdx == c
    && f != i && LidOf(i, f) < |run[u].nodes[i].alive| && !run[u].nodes[i].alive[LidOf(i, f)]
  }

  // A leader is ahead of what a node holds only because it believed that node dead when it
  // moved its commit index there.
  lemma {:induction false} OutrunMeansPresumedDead(cfg: Config, run: seq<State>, t: nat, i: nat, f: nat)
    returns (u: nat)
    requires IsRun(cfg, run) && NeverTwoLead(run) && t < |run| && Leads(run[t], i)
    requires f < |run[t].nodes| && f != i
    requires run[t].nodes[f].log.stableIdx < run[t].nodes[i].log.commitIdx
    ensures u <= t && PresumedDead(run, u, i, f, run[t].nodes[i].log.commitIdx)
    decreases t
  {
    hide MatchInv, SafetyInv, NodeSafe, Apply, Enabled, UpdateCommitIdx, Next;
    var s' := run[t];
    RunMatches(cfg, run, t);
    MatchFacts(cfg, s', f);
    if t == 0 {
      assert false;
    } else {
      StableNeverShrinks(cfg, run, t - 1, t);
      if CommitsAt(run, t, i) {
        var p := CommitOutrunsOnlyDead(cfg, run, t, i);
        MatchesUntouched(Matched(run[t - 1].nodes[i], LidOf(i, p.src), p.body.stableIdx));
        assert Peer(i, LidOf(i, f)) == f && Held(s', i, LidOf(i, f)) == s'.nodes[f].log.stableIdx;
        u := t;
      } else if Leads(run[t - 1], i) {
        u := OutrunMeansPresumedDead(cfg, run, t - 1, i, f);
      } else {
        RunSafe(cfg, run, t - 1);
        var step := StepAt(cfg, run, t);
        NewLeaderHasNothing(cfg, run[t - 1], step, i);
        LeaderCommitAtLeastUnset(cfg, s', i);
      }
    }
  }

  // A commit index in flight is one its sender had while leading.
  lemma NewPacketCommit(cfg: Config, s: State, step: Step, p: Packet)
    requires SafetyInv(cfg, s) && Enabled(cfg, s, step)
    requires p in Apply(cfg, s, step).net && p !in s.net && (p.body.Append? || p.body.Alive?)
    ensures Leads(Apply(cfg, s, step), p.src)
    ensures Apply(cfg, s, step).nodes[p.src].log.commitIdx == p.body.commitIdx
  {
    hide SafetyInv, ElectionInv, NodeOk, Process, UpdateLeader, PrepareLogReplication, CheckPending, AppendSafe;
    SafeFacts(cfg, s);
    match step
    case Deliver(q, retransIdx, accepts) => ProcessReplies(cfg, s, q, retransIdx, accepts);
    case Heartbeat(i) =>
      NodeFacts(cfg, s, i);
      HeartbeatStep(s.nodes[i]);
    case DoWork(i, w) =>
      NodeFacts(cfg, s, i);
      WorkStep(s.nodes[i], w, cfg.maxPerPkt);
      WorkPacketSafe(cfg, s, i, w);
    case SendAlive(_, _) =>
    case SetAlive(_, _, _) =>
    case ClientAppend(_, _) =>
    case Poll(_, _) =>
  }

  lemma {:induction false} CommitIdxHasOrigin(cfg: Config, run: seq<State>, t: nat, p: Packet) returns (v: nat)
    requires IsRun(cfg, run) && NeverTwoLead(run) && t < |run|
    requires p in run[t].net && (p.body.Append? || p.body.Alive?)
    ensures v <= t && Leads(run[v], p.src) && run[v].nodes[p.src].log.commitIdx == p.body.commitIdx
    decreases t
  {
    hide SafetyInv, Apply, Enabled, Next;
    if t > 0 {
      if p in run[t - 1].net {
        v := CommitIdxHasOrigin(cfg, run, t - 1, p);
      } else {
        RunSafe(cfg, run, t - 1);
        var step := StepAt(cfg, run, t);
        NewPacketCommit(cfg, run[t - 1], step, p);
        v := t;
      }
    }
  }

  // So is a message ahead of its receiver only if the sender, when it moved its commit index
  // there, believed that receiver dead.
  lemma MessageOutrunsOnlyPresumedDead(cfg: Config, run: seq<State>, t: nat, p: Packet) returns (u: nat)
    requires IsRun(cfg, run) && NeverTwoLead(run) && t < |run|
    requires p in run[t].net && (p.body.Append? || p.body.Alive?) && p.dst < |run[t].nodes| && p.dst != p.src
    requires run[t].nodes[p.dst].log.stableIdx < p.body.commitIdx
    ensures u <= t && PresumedDead(run, u, p.src, p.dst, p.body.commitIdx)
  {
    hide IsRun, PresumedDead;
    var v := CommitIdxHasOrigin(cfg, run, t, p);
    StableNeverShrinks(cfg, run, v, t);
    u := OutrunMeansPresumedDead(cfg, run, v, p.src, p.dst);
  }

  // ---------- while every target counts as alive ----------

  ghost predicate AllTargetsAlive(n: Node) {
    forall lid :: 0 <= lid < |n.alive| ==> n.alive[lid]
  }

  lemma StepKeepsAlive(cfg: Config, s: State, step: Step, i: nat)
    requires ElectionInv(cfg, s) && Enabled(cfg, s, step) && cfg.allAlive && i < |s.nodes|
    requires AllTargetsAlive(s.nodes[i])
    ensures |Apply(cfg, s, step).nodes| == |s.nodes| && AllTargetsAlive(Apply(cfg, s, step).nodes[i])
  {
    hide UpdateLeader, CheckPending, PrepareLogReplication, AppendCommand, Process, ElectionInv;
    SameSize(cfg, s);
    NodeFacts(cfg, s, i);
    match step
    case Deliver(p, retransIdx, accepts) =>
      if p.dst == i { ProcessStep(s.nodes[i], LidOf(i, p.src), cfg.ids[p.src], p.body, retransIdx, accepts); }
    case Heartbeat(k) => if k == i { HeartbeatStep(s.nodes[i]); }
    case Poll(k, lid) => if k == i { PollStep(s.nodes[i], lid); }
    case DoWork(k, w) => if k == i { WorkStep(s.nodes[i], w, cfg.maxPerPkt); }
    case SendAlive(_, _) =>
    case SetAlive(_, _, _) =>
    case ClientAppend(_, _) =>
  }

  lemma {:induction false} RunKeepsAlive(cfg: Config, run: seq<State>, t: nat, i: nat)
    requires IsRun(cfg, run) && cfg.allAlive && t < |run| && i < |cfg.ids|
    ensures |run[t].nodes| == |cfg.ids| && AllTargetsAlive(run[t].nodes[i])
  {
    hide ElectionInv, Apply, Enabled;
    if t == 0 {
      assert InitNode(cfg, i, run[0].nodes[i]);
    } else {
      RunKeepsAlive(cfg, run, t - 1, i);
      RunKeepsElection(cfg, run, t - 1);
      var step := StepAt(cfg, run, t);
      StepKeepsAlive(cfg, run[t - 1], step, i);
    }
  }

  lemma NobodyPresumedDead(cfg: Config, run: seq<State>, u: nat, i: nat, f: nat, c: int)
    requires IsRun(cfg, run) && cfg.allAlive
    ensures !PresumedDead(run, u, i, f, c)
  {
    hide IsRun;
    if CommitsAt(run, u, i) {
      RunKeepsElection(cfg, run, u);
      SameSize(cfg, run[u]);
      RunKeepsAlive(cfg, run, u, i);
    }
  }

  // No other node's stable index is below commitIdx.
  ghost predicate Covered(s: State, src: nat, commitIdx: int) {
    forall j :: 0 <= j < |s.nodes| && j != src ==> commitIdx <= s.nodes[j].log.stableIdx
  }

  // At every moment of a run without dead targets the leader's commit index and every commit
  // index in flight are at most what any follower holds.
  lemma CommitNeverOutruns(cfg: Config, run: seq<State>, t: nat)
    requires IsRun(cfg, run) && NeverTwoLead(run) && cfg.allAlive && t < |run|
    ensures forall i: nat :: Leads(run[t], i) ==> Covered(run[t], i, run[t].nodes[i].log.commitIdx)
    ensures forall p :: p in run[t].net && (p.body.Append? || p.body.Alive?) ==>
      Covered(run[t], p.src, p.body.commitIdx)
  {
    hide IsRun, PresumedDead;
    forall i: nat, f: nat | Leads(run[t], i) && f < |run[t].nodes| && f != i
      ensures run[t].nodes[i].log.commitIdx <= run[t].nodes[f].log.stableIdx
    {
      if run[t].nodes[f].log.stableIdx < run[t].nodes[i].log.commitIdx {
        var u := OutrunMeansPresumedDead(cfg, run, t, i, f);
        NobodyPresumedDead(cfg, run, u, i, f, run[t].nodes[i].log.commitIdx);
      }
    }
    forall p: Packet, f: nat | p in run[t].net && (p.body.Append? || p.body.Alive?) && f < |run[t].nodes| && f != p.src
      ensures p.body.commitIdx <= run[t].nodes[f].log.stableIdx
    {
      var v := CommitIdxHasOrigin(cfg, run, t, p);
      StableNeverShrinks(cfg, run, v, t);
      if run[t].nodes[f].log.stableIdx < p.body.commitIdx {
        var u := OutrunMeansPresumedDead(cfg, run, v, p.src, f);
        NobodyPresumedDead(cfg, run, u, p.src, f, p.body.commitIdx);
      }
    }
  }

  // ---------- what a follower does with a commit index ----------

  // The log on which the handler of a message with a commit index runs commit_log: for an
  // APPEND the one append_commands leaves.
  function CommitsOn(n: Node, b: Body, rid: nat, retransIdx: int): (l: RingLog)
    requires n.Shaped()
  {
    if b.Append? then HandleAppendRpc(n, b, rid, retransIdx).0.log else n.log
  }

  // The branch of commit_log that refuses an index beyond the local stable index is taken
  // only for a follower that was believed dead when the leader moved its commit index there.
  lemma RefusalMeansPresumedDead(cfg: Config, run: seq<State>, t: nat, p: Packet, retransIdx: int, accepts: nat)
    returns (u: nat)
    requires IsRun(cfg, run) && NeverTwoLead(run) && t < |run|
    requires p in run[t].net && (p.body.Append? || p.body.Alive?)
    requires p.dst < |run[t].nodes| && p.src != p.dst && run[t].nodes[p.dst].role != Leader
    ensures run[t].nodes[p.dst].Shaped() && p.src < |cfg.ids|
    ensures var n := run[t].nodes[p.dst];
      var l := CommitsOn(n, p.body, cfg.ids[p.src], retransIdx);
      && |l.slots| > 0
      && (CommitLog(l, p.body.commitIdx, accepts).commitIdx == Max(n.log.commitIdx, p.body.commitIdx)
          || (u <= t && PresumedDead(run, u, p.src, p.dst, p.body.commitIdx)))
  {
    hide IsRun, PresumedDead, MatchInv, SafetyInv, NodeInv, Refines, StableExact, AgreesWith;
    u := 0;
    RunMatches(cfg, run, t);
    var s, n := run[t], run[t].nodes[p.dst];
    MatchFacts(cfg, s, p.dst);
    PacketFacts(cfg, s, p);
    if p.body.Append? {
      AppendProgress(n, p.body, cfg.ids[p.src], retransIdx, s.clientLog);
    }
    var l := CommitsOn(n, p.body, cfg.ids[p.src], retransIdx);
    hide HandleAppendRpc, CommitLog;
    var received :| Stands(l, received, s.clientLog);
    CommitRefines(l, received, p.body.commitIdx, accepts);
    if n.log.stableIdx < p.body.commitIdx {
      u := MessageOutrunsOnlyPresumedDead(cfg, run, t, p);
    }
  }

  // So while every target counts as alive a follower that is told to commit always can.
  lemma CommitNeverRefused(cfg: Config, run: seq<State>, t: nat, p: Packet, retransIdx: int, accepts: nat)
    requires IsRun(cfg, run) && NeverTwoLead(run) && cfg.allAlive && t < |run|
    requires p in run[t].net && (p.body.Append? || p.body.Alive?)
    requires p.dst < |run[t].nodes| && p.src != p.dst && run[t].nodes[p.dst].role != Leader
    ensures run[t].nodes[p.dst].Shaped() && p.src < |cfg.ids|
    ensures var n := run[t].nodes[p.dst];
      var l := CommitsOn(n, p.body, cfg.ids[p.src], retransIdx);
      && |l.slots| > 0
      && CommitLog(l, p.body.commitIdx, accepts).commitIdx == Max(n.log.commitIdx, p.body.commitIdx)
  {
    hide IsRun, PresumedDead, CommitLog, CommitsOn;
    var u := RefusalMeansPresumedDead(cfg, run, t, p, retransIdx, accepts);
    NobodyPresumedDead(cfg, run, u, p.src, p.dst, p.body.commitIdx);
  }

  // At the handler: every message a follower commits on raises its commit index to at least
  // the one it carries.
  lemma FollowerCommits(cfg: Config, run: seq<State>, t: nat, p: Packet, retransIdx: int, accepts: nat)
    requires IsRun(cfg, run) && NeverTwoLead(run) && cfg.allAlive && t < |run|
    requires p in run[t].net && p.dst < |run[t].nodes| && p.src != p.dst && run[t].nodes[p.dst].role == Follower
    requires p.src < |cfg.ids|
    requires (p.body.Append? && p.body.term == run[t].nodes[p.dst].term
          && run[t].nodes[p.dst].leaderId == cfg.ids[p.src])
      || (p.body.Alive? && p.body.term >= run[t].nodes[p.dst].term && p.body.commitIdx != -1)
    ensures var n, lid := run[t].nodes[p.dst], LidOf(p.dst, p.src);
      && n.Shaped() && lid < n.NumTargets()
      && FollowerProcessPkt(n, lid, cfg.ids[p.src], p.body, retransIdx, accepts).0.log.commitIdx
        == Max(n.log.commitIdx, p.body.commitIdx)
  {
    RunMatches(cfg, run, t);
    CommitNeverRefused(cfg, run, t, p, retransIdx, accepts);
    var s, n := run[t], run[t].nodes[p.dst];
    assert NodeInv(cfg, p.dst, n);
    hide HandleAppendRpc, CommitLog, MatchInv;
  }

  // In one call of update_commit_idx: a commit passes a target's match index if and only if
  // the target is believed dead and some qualifying match value lies above it.
  lemma DeadTargetIsOutrunIff(n: Node, k: nat)
    requires n.Shaped() && n.log.commitIdx >= -1 && MatchesUsable(n) && k < n.NumTargets()
    requires UpdateCommitIdx(n).log.commitIdx != n.log.commitIdx
    ensures n.matchIndex[k] < UpdateCommitIdx(n).log.commitIdx <==>
      && !n.alive[k]
      && exists i :: 0 <= i < n.NumTargets() && n.matchIndex[i] >= 0 && Qualifies(n, n.matchIndex[i])
          && n.matchIndex[k] < n.matchIndex[i]
  {
    CommitRuleClosedForm(n);
  }
}
