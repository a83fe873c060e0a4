/** Who can lead: what every handler keeps of a node's election state, and leader
    uniqueness over whole runs. */
module Election {
  import opened Types
  import opened RingLogs
  import opened Nodes
  import opened Consensus
  import opened Replication
  import opened CandidateRole
  import opened FollowerRole
  import opened LeaderRole
  import opened Cluster

  // ---------- one node ----------

  // The last entry written carries no later term than the node's; slots never written may
  // hold anything.
  ghost predicate EndTermBounded(l: RingLog, term: int)
    requires |l.slots| > 0
  {
    l.lastIdx >= 0 ==> 0 <= SlotAt(l.slots, l.lastIdx).term <= term
  }

  // The part of a node no step may disturb.
  ghost predicate NodeOk(n: Node) {
    && n.Shaped() && ListsExact(n)
    && n.term >= 0 && EndTermBounded(n.log, n.term)
  }

  // What one handler may change.
  ghost predicate NodeStep(n: Node, n': Node) {
    && NodeOk(n')
    && n'.id == n.id && n'.peers == n.peers && n'.alive == n.alive
    && |n'.log.slots| == |n.log.slots|
    && n'.term >= n.term
  }

  lemma {:induction false} AppendAllKeepsTerms(l: RingLog, entries: seq<Chunk>, term: int, start: int)
    requires |l.slots| > 0 && term >= 0 && EndTermBounded(l, term)
    ensures AppendAll(l, entries, term, start).Some? ==>
      EndTermBounded(AppendAll(l, entries, term, start).value, term)
    decreases |entries|
  {
    if entries != [] {
      var r := AppendCommand(l, entries[0], term, start);
      if r.Some? {
        AppendAllKeepsTerms(r.value, entries[1..], term, start + 1);
      }
    }
  }

  lemma HandleAppendStep(n: Node, b: Body, rid: nat, retransIdx: int)
    requires NodeOk(n) && b.Append?
    ensures var (n', out) := HandleAppendRpc(n, b, rid, retransIdx);
      NodeStep(n, n') && n'.votes == n.votes && n'.role == n.role && n'.term == n.term
      && (out.Silent? || (out.Reply? && out.body.AppendReply? && out.body.term == n.term))
  {
    AppendAllKeepsTerms(n.log, b.entries, n.term, b.prevLogIdx + 1);
  }

  lemma CommitStep(n: Node, commitIdx: int, accepts: nat)
    requires NodeOk(n)
    ensures NodeStep(n, CommitOn(n, commitIdx, accepts))
  {
    CommitKeepsEnds(n.log, commitIdx, accepts);
  }

  lemma BecomeFollowerStep(n: Node)
    requires NodeOk(n)
    ensures NodeStep(n, BecomeFollower(n))
  {
    forall lid | 0 <= lid < n.NumTargets()
      ensures ListExact(StopLeader(n).retrans[lid], StopLeader(n).retransEntries[lid])
    {
      assert ListExact(n.retrans[lid], n.retransEntries[lid]);
    }
    assert ListsExact(StopRole(n));
  }

  lemma AcceptLeaderStep(n: Node, lid: nat, rid: nat, term: int)
    requires NodeOk(n) && lid < n.NumTargets() && term >= n.term
    ensures NodeStep(n, AcceptLeader(n, lid, rid, term))
  {
    BecomeFollowerStep(n.(term := term, leaderId := rid, curLeaderLid := lid));
  }

  // A reply is an acknowledgement or a vote for a candidate whose id is not higher.
  ghost predicate ReplyOk(n: Node, rid: nat, out: Output) {
    || out.Silent?
    || (out.Reply? && out.body.term >= 0 && (out.body.AppendReply? || (out.body.Vote? && n.id >= rid)))
  }

  lemma FollowerStep(n: Node, lid: nat, rid: nat, b: Body, retransIdx: int, accepts: nat)
    requires NodeOk(n) && lid < n.NumTargets() && n.role == Follower
    ensures var (n', out) := FollowerProcessPkt(n, lid, rid, b, retransIdx, accepts);
      && NodeStep(n, n') && n'.role == Follower && (n'.votes == n.votes || n'.votes == 0)
      && ReplyOk(n, rid, out)
  {
    hide HandleAppendRpc, CommitLog;
    match b
    case Nomi(_, _, _, _) =>
    case Alive(term, commitIdx, _, _) =>
      if term > n.term {
        AcceptLeaderStep(n, lid, rid, term);
        CommitStep(AcceptLeader(n, lid, rid, term), commitIdx, accepts);
      } else {
        CommitStep(n, commitIdx, accepts);
      }
    case Append(term, _, _, _, commitIdx, _, _) =>
      if term > n.term {
        AcceptLeaderStep(n, lid, rid, term);
        HandleAppendStep(AcceptLeader(n, lid, rid, term), b, rid, retransIdx);
      } else {
        HandleAppendStep(n, b, rid, retransIdx);
        CommitStep(HandleAppendRpc(n, b, rid, retransIdx).0, commitIdx, accepts);
      }
    case Vote(_, _) =>
    case AppendReply(_, _, _, _) =>
  }

  lemma CandidateStep(n: Node, lid: nat, rid: nat, b: Body, retransIdx: int)
    requires NodeOk(n) && lid < n.NumTargets() && n.role == Candidate
    ensures var (n', out) := CandidateProcessPkt(n, lid, rid, b, retransIdx);
      && NodeStep(n, n') && ReplyOk(n, rid, out)
      && (n'.votes == n.votes || n'.votes == 0 || (b.Vote? && n'.votes == n.votes + 1 && n'.role == Candidate))
      && (n'.role == Leader ==> b.Vote? && n.votes + 1 == n.NumTargets())
  {
    hide HandleAppendRpc;
    match b
    case Vote(_, _) =>
      assert forall lid' :: 0 <= lid' < n.NumTargets() ==>
        ListExact(AcceptVote(n).retrans[lid'], AcceptVote(n).retransEntries[lid']) by {
        assert ListsExact(n);
      }
    case Nomi(term, _, lastIdx, lastTerm) => BecomeFollowerStep(LearnTerm(n, term, rid));
    case Alive(term, _, _, _) =>
      if term >= n.term {
        AcceptLeaderStep(n, lid, rid, term);
      }
    case Append(_, _, _, _, _, _, _) => HandleAppendStep(n, b, rid, retransIdx);
    case AppendReply(_, _, _, _) =>
  }

  lemma UpdateCommitStep(n: Node)
    requires NodeOk(n)
    ensures NodeStep(n, UpdateCommitIdx(n))
    ensures var n' := UpdateCommitIdx(n);
      n' == n.(log := n.log.(commitIdx := n'.log.commitIdx, lastApplied := n'.log.lastApplied, slots := n'.log.slots))
    ensures var slots, slots' := n.log.slots, UpdateCommitIdx(n).log.slots;
      forall k :: 0 <= k < |slots| ==> slots'[k].data == slots[k].data && slots'[k].term == slots[k].term
  {
    var best := BestMatch(n, 0, -1);
    if best.Some? {
      InvalidateIsExact(n.log.slots, n.log.commitIdx, best.value);
    }
  }

  lemma LeaderStep(n: Node, lid: nat, rid: nat, b: Body)
    requires NodeOk(n) && lid < n.NumTargets() && n.role == Leader
    ensures var n' := LeaderProcessPkt(n, lid, rid, b);
      && NodeStep(n, n') && (n'.votes == n.votes || n'.votes == 0)
      && (n'.role == Leader || (b.Alive? && b.term > n.term))
  {
    match b
    case AppendReply(_, success, loggedIdx, stableIdx) =>
      hide UpdateCommitIdx;
      var matched := n.(matchIndex := n.matchIndex[lid := stableIdx]);
      assert ListsExact(matched) by {
        assert forall l :: 0 <= l < n.NumTargets() ==> ListExact(n.retrans[l], n.retransEntries[l]);
      }
      UpdateCommitStep(matched);
      QueueKeepsLists(n, lid, loggedIdx);
    case Alive(term, _, _, _) =>
      if term > n.term {
        AcceptLeaderStep(n, lid, rid, term);
      }
    case _ =>
  }

  lemma ProcessStep(n: Node, lid: nat, rid: nat, b: Body, retransIdx: int, accepts: nat)
    requires NodeOk(n) && lid < n.NumTargets()
    ensures var (n', out) := Process(n, lid, rid, b, retransIdx, accepts);
      && NodeStep(n, n') && ReplyOk(n, rid, out)
      && (n'.votes == n.votes || n'.votes == 0 || (n.role == Candidate && b.Vote? && n'.votes == n.votes + 1))
      && (n'.role == Leader ==> n.role == Leader || (n.role == Candidate && b.Vote? && n.votes + 1 == n.NumTargets()))
  {
    hide FollowerProcessPkt, CandidateProcessPkt, LeaderProcessPkt;
    match n.role
    case Follower => FollowerStep(n, lid, rid, b, retransIdx, accepts);
    case Candidate => CandidateStep(n, lid, rid, b, retransIdx);
    case Leader => LeaderStep(n, lid, rid, b);
  }

  lemma HeartbeatStep(n: Node)
    requires NodeOk(n) && n.role != Leader
    ensures var (n', out) := UpdateLeader(n);
      && NodeStep(n, n') && n'.role != Leader && (n'.votes == n.votes || n'.votes == 0)
      && n'.log == n.log
      && (out.Silent? || (out.Broadcast? && n'.role == Candidate && out.body == Nomination(n')))
  {
  }

  lemma PollStep(n: Node, lid: nat)
    requires NodeOk(n) && lid < n.NumTargets()
    ensures var n' := CheckPending(n, lid).0;
      && NodeStep(n, n')
      && n' == n.(retrans := n'.retrans, retransEntries := n'.retransEntries)
  {
    PopKeepsLists(n, lid);
  }

  lemma WorkStep(n: Node, w: Work, maxPerPkt: nat)
    requires NodeOk(n) && w.lid < n.NumTargets()
    ensures var sent := PrepareLogReplication(n, w, maxPerPkt);
      && NodeStep(n, sent.node)
      && sent.node == n.(nextIndex := sent.node.nextIndex)
      && (sent.out.Some? ==> n.role == Leader && sent.out.value.Append? && sent.out.value.term == n.term)
  {
  }

  lemma ClientAppendStep(n: Node, data: Chunk)
    requires NodeOk(n)
    ensures var r := AppendCommand(n.log, data, n.term, n.log.lastIdx + 1);
      r.Some? ==> NodeStep(n, n.(log := r.value))
  {
  }

  // ---------- counting voters ----------

  ghost predicate Distinct(voters: seq<nat>) {
    forall i, j :: 0 <= i < j < |voters| ==> voters[i] != voters[j]
  }

  ghost function Nodes0To(n: nat): (s: set<nat>)
    ensures |s| == n && forall j: nat :: j in s <==> j < n
  {
    if n == 0 then {} else Nodes0To(n - 1) + {n - 1}
  }

  ghost function VoterSet(voters: seq<nat>): (s: set<nat>)
    ensures forall v :: v in s <==> v in voters
    ensures |s| <= |voters|
  {
    if voters == [] then {} else VoterSet(voters[1..]) + {voters[0]}
  }

  lemma DistinctTail(voters: seq<nat>)
    requires voters != []
    ensures Distinct(voters) <==> Distinct(voters[1..]) && voters[0] !in voters[1..]
  {
    var rest := voters[1..];
    if Distinct(rest) && voters[0] !in rest {
      forall i, j | 0 <= i < j < |voters|
        ensures voters[i] != voters[j]
      {
        assert voters[j] == rest[j - 1];
        assert i > 0 ==> voters[i] == rest[i - 1];
      }
    }
  }

  lemma {:induction false} DistinctVoterCount(voters: seq<nat>)
    ensures Distinct(voters) <==> |VoterSet(voters)| == |voters|
    decreases |voters|
  {
    if voters != [] {
      DistinctVoterCount(voters[1..]);
      DistinctTail(voters);
    }
  }

  // With as many counted votes as targets, every target voted exactly when no target was
  // counted twice.
  lemma UnanimousIffDistinct(voters: seq<nat>, n: nat, i: nat)
    requires i < n && |voters| == n - 1
    requires forall v :: v in voters ==> v < n && v != i
    ensures Distinct(voters) <==> forall j: nat :: j < n && j != i ==> j in voters
  {
    DistinctVoterCount(voters);
    var targets := Nodes0To(n) - {i};
    var counted := VoterSet(voters);
    assert counted <= targets;
    if counted != targets {
      SmallerSubset(counted, targets);
    }
  }

  lemma {:induction false} SmallerSubset(a: set<nat>, b: set<nat>)
    requires a < b
    ensures |a| < |b|
  {
    var x :| x in b && x !in a;
    assert b == a + (b - a) && x in b - a;
  }

  // ---------- the cluster ----------

  ghost predicate Lowest(cfg: Config, i: nat)
    requires i < |cfg.ids|
  {
    forall j :: 0 <= j < |cfg.ids| && j != i ==> cfg.ids[i] < cfg.ids[j]
  }

  // Who can lead: only the least id if each target's vote counts once, and never the
  // greatest id in any case.
  ghost predicate MayLead(cfg: Config, i: nat)
    requires i < |cfg.ids|
  {
    (exists j :: 0 <= j < |cfg.ids| && cfg.ids[i] < cfg.ids[j]) && (cfg.votesOnce ==> Lowest(cfg, i))
  }

  ghost predicate NodeInv(cfg: Config, i: nat, n: Node)
    requires i < |cfg.ids|
  {
    && NodeShaped(cfg, i, n) && NodeOk(n) && n.id == cfg.ids[i]
    && (forall lid :: 0 <= lid < n.NumTargets() ==> n.peers[lid] == cfg.ids[Peer(i, lid)])
    && (n.role == Leader ==> MayLead(cfg, i))
  }

  ghost predicate PacketInv(cfg: Config, p: Packet) {
    && p.src < |cfg.ids| && p.dst < |cfg.ids| && p.src != p.dst && p.body.term >= 0
    && (p.body.Vote? ==> cfg.ids[p.src] > cfg.ids[p.dst])
    && (p.body.Append? || p.body.Alive? ==> MayLead(cfg, p.src))
  }

  ghost predicate VotersInv(cfg: Config, i: nat, votes: int, voters: seq<nat>)
    requires i < |cfg.ids|
  {
    && |voters| == votes
    && (forall v :: v in voters ==> v < |cfg.ids| && cfg.ids[v] > cfg.ids[i])
    && (cfg.votesOnce ==> Distinct(voters))
  }

  ghost predicate ElectionInv(cfg: Config, s: State) {
    && Shaped(cfg, s)
    && (forall i :: 0 <= i < |s.nodes| ==> NodeInv(cfg, i, s.nodes[i]))
    && (forall p :: p in s.net ==> PacketInv(cfg, p))
    && (forall i :: 0 <= i < |s.nodes| ==> VotersInv(cfg, i, s.nodes[i].votes, s.voters[i]))
  }

  // Every counted voter has a higher id; one vote from each target makes the winner the
  // node with the least id.
  lemma WinnerMayLead(cfg: Config, i: nat, voters: seq<nat>, last: nat)
    requires i < |cfg.ids| && last < |cfg.ids| && cfg.ids[last] > cfg.ids[i]
    requires VotersInv(cfg, i, |voters|, voters)
    requires |voters| + 1 == |cfg.ids| - 1
    requires cfg.votesOnce ==> last !in voters
    ensures MayLead(cfg, i)
  {
    if cfg.votesOnce {
      var all := voters + [last];
      assert Distinct(all);
      UnanimousIffDistinct(all, |cfg.ids|, i);
      forall j | 0 <= j < |cfg.ids| && j != i
        ensures cfg.ids[i] < cfg.ids[j]
      {
        assert j in all;
      }
    }
  }

  // Replacing one node, adding packets and recounting one node's voters keeps the invariant.
  lemma Reassemble(cfg: Config, s: State, s': State, i: nat)
    requires ElectionInv(cfg, s) && i < |s.nodes|
    requires |s'.nodes| == |s.nodes| && |s'.voters| == |s.voters|
    requires forall j :: 0 <= j < |s.nodes| && j != i ==> s'.nodes[j] == s.nodes[j] && s'.voters[j] == s.voters[j]
    requires NodeInv(cfg, i, s'.nodes[i]) && VotersInv(cfg, i, s'.nodes[i].votes, s'.voters[i])
    requires forall p :: p in s'.net ==> p in s.net || PacketInv(cfg, p)
    ensures ElectionInv(cfg, s')
  {
  }

  lemma DeliverKeeps(cfg: Config, s: State, p: Packet, retransIdx: int, accepts: nat)
    requires ElectionInv(cfg, s) && Enabled(cfg, s, Deliver(p, retransIdx, accepts))
    ensures ElectionInv(cfg, OnDeliver(cfg, s, p, retransIdx, accepts))
    ensures s.nodes[p.dst].term <= OnDeliver(cfg, s, p, retransIdx, accepts).nodes[p.dst].term
  {
    hide Process;
    var i := p.dst;
    var n := s.nodes[i];
    assert NodeInv(cfg, i, n) && PacketInv(cfg, p) && VotersInv(cfg, i, n.votes, s.voters[i]);
    assert NodeOk(n) && LidOf(i, p.src) < n.NumTargets();
    ProcessStep(n, LidOf(i, p.src), cfg.ids[p.src], p.body, retransIdx, accepts);
    var (n', out) := Process(n, LidOf(i, p.src), cfg.ids[p.src], p.body, retransIdx, accepts);
    if n'.role == Leader && n.role != Leader {
      WinnerMayLead(cfg, i, s.voters[i], p.src);
    }
    var s' := OnDeliver(cfg, s, p, retransIdx, accepts);
    assert cfg.ids[i] != cfg.ids[p.src];
    forall q | q in s'.net
      ensures q in s.net || PacketInv(cfg, q)
    {
    }
    Reassemble(cfg, s, s', i);
  }

  lemma HeartbeatKeeps(cfg: Config, s: State, i: nat)
    requires ElectionInv(cfg, s) && Enabled(cfg, s, Heartbeat(i))
    ensures ElectionInv(cfg, OnHeartbeat(cfg, s, i))
  {
    hide UpdateLeader;
    assert NodeInv(cfg, i, s.nodes[i]) && VotersInv(cfg, i, s.nodes[i].votes, s.voters[i]);
    HeartbeatStep(s.nodes[i]);
    Reassemble(cfg, s, OnHeartbeat(cfg, s, i), i);
  }

  lemma LeaderStepsKeep(cfg: Config, s: State, step: Step)
    requires ElectionInv(cfg, s) && Enabled(cfg, s, step)
    requires step.Poll? || step.DoWork? || step.ClientAppend?
    ensures ElectionInv(cfg, Apply(cfg, s, step))
  {
    hide CheckPending, PrepareLogReplication, AppendCommand;
    assert NodeInv(cfg, step.i, s.nodes[step.i]);
    match step {
      case Poll(i, lid) => PollStep(s.nodes[i], lid);
      case DoWork(i, w) => WorkStep(s.nodes[i], w, cfg.maxPerPkt);
      case ClientAppend(i, data) => ClientAppendStep(s.nodes[i], data);
    }
    Reassemble(cfg, s, Apply(cfg, s, step), step.i);
  }

  lemma StepKeeps(cfg: Config, s: State, step: Step)
    requires ElectionInv(cfg, s) && Enabled(cfg, s, step)
    ensures ElectionInv(cfg, Apply(cfg, s, step))
  {
    var s' := Apply(cfg, s, step);
    match step
    case Deliver(p, retransIdx, accepts) => DeliverKeeps(cfg, s, p, retransIdx, accepts);
    case Heartbeat(i) => HeartbeatKeeps(cfg, s, i);
    case SendAlive(i, hbInterval) =>
      assert NodeInv(cfg, i, s.nodes[i]);
      Reassemble(cfg, s, s', i);
    case SetAlive(i, lid, alive) =>
      assert NodeInv(cfg, i, s.nodes[i]);
      assert ListsExact(s'.nodes[i]) by {
        assert ListsExact(s.nodes[i]);
      }
      Reassemble(cfg, s, s', i);
    case ClientAppend(_, _) => LeaderStepsKeep(cfg, s, step);
    case Poll(_, _) => LeaderStepsKeep(cfg, s, step);
    case DoWork(_, _) => LeaderStepsKeep(cfg, s, step);
  }

  lemma StepKeepsTerm(cfg: Config, s: State, step: Step, i: nat)
    requires ElectionInv(cfg, s) && Enabled(cfg, s, step) && i < |s.nodes|
    ensures |Apply(cfg, s, step).nodes| == |s.nodes|
    ensures s.nodes[i].term <= Apply(cfg, s, step).nodes[i].term
  {
    hide UpdateLeader, CheckPending, PrepareLogReplication, AppendCommand, Process;
    assert NodeInv(cfg, i, s.nodes[i]);
    match step
    case Deliver(p, retransIdx, accepts) => DeliverKeeps(cfg, s, p, retransIdx, accepts);
    case Heartbeat(k) => if k == i { HeartbeatStep(s.nodes[i]); }
    case SendAlive(_, _) =>
    case SetAlive(_, _, _) =>
    case ClientAppend(_, _) =>
    case Poll(k, lid) => if k == i { PollStep(s.nodes[i], lid); }
    case DoWork(k, w) => if k == i { WorkStep(s.nodes[i], w, cfg.maxPerPkt); }
  }

  lemma InitElection(cfg: Config, s: State)
    requires Init(cfg, s)
    ensures ElectionInv(cfg, s)
  {
    forall i | 0 <= i < |s.nodes|
      ensures NodeInv(cfg, i, s.nodes[i]) && VotersInv(cfg, i, s.nodes[i].votes, s.voters[i])
    {
      assert InitNode(cfg, i, s.nodes[i]);
    }
  }

  lemma {:induction false} RunKeepsElection(cfg: Config, run: seq<State>, t: nat)
    requires IsRun(cfg, run) && t < |run|
    ensures ElectionInv(cfg, run[t])
  {
    if t == 0 {
      InitElection(cfg, run[0]);
    } else {
      RunKeepsElection(cfg, run, t - 1);
      var step := StepAt(cfg, run, t);
      StepKeeps(cfg, run[t - 1], step);
    }
  }

  ghost predicate Leads(s: State, i: nat) {
    i < |s.nodes| && s.nodes[i].role == Leader
  }

  ghost predicate AtMostOneLeads(s: State) {
    forall i, j :: Leads(s, i) && Leads(s, j) ==> i == j
  }

  // At no moment of the run do two nodes lead.
  ghost predicate NeverTwoLead(run: seq<State>) {
    forall t :: 0 <= t < |run| ==> AtMostOneLeads(run[t])
  }

  // ---------- main results ----------

  // If no target's vote is counted twice between resets, a node that leads at any moment
  // of a run has the least id, so no two nodes ever lead, at the same time or not.
  lemma LeaderUnique(cfg: Config, run: seq<State>, t: nat, u: nat, i: nat, j: nat)
    requires IsRun(cfg, run) && cfg.votesOnce
    requires t < |run| && u < |run| && i < |cfg.ids| && j < |cfg.ids|
    requires Leads(run[t], i) && Leads(run[u], j)
    ensures Lowest(cfg, i) && i == j
  {
    RunKeepsElection(cfg, run, t);
    RunKeepsElection(cfg, run, u);
    assert NodeInv(cfg, i, run[t].nodes[i]) && NodeInv(cfg, j, run[u].nodes[j]);
  }

  lemma VotesOnceMeansOneLeader(cfg: Config, run: seq<State>)
    requires IsRun(cfg, run) && cfg.votesOnce
    ensures NeverTwoLead(run)
  {
    forall t | 0 <= t < |run|
      ensures AtMostOneLeads(run[t])
    {
      RunKeepsElection(cfg, run, t);
      SameSize(cfg, run[t]);
      forall i, j | Leads(run[t], i) && Leads(run[t], j)
        ensures i == j
      {
        LeaderUnique(cfg, run, t, t, i, j);
      }
    }
  }

  // Whatever the network does, votes only go from higher to lower ids and the node with
  // the greatest id never leads.
  lemma VotesGoDown(cfg: Config, run: seq<State>, t: nat)
    requires IsRun(cfg, run) && t < |run|
    ensures forall p :: p in run[t].net && p.body.Vote? ==>
      p.src < |cfg.ids| && p.dst < |cfg.ids| && cfg.ids[p.src] > cfg.ids[p.dst]
    ensures forall i :: 0 <= i < |cfg.ids| && Leads(run[t], i) ==>
      exists j :: 0 <= j < |cfg.ids| && cfg.ids[i] < cfg.ids[j]
  {
    RunKeepsElection(cfg, run, t);
    forall i | 0 <= i < |cfg.ids| && Leads(run[t], i)
      ensures exists j :: 0 <= j < |cfg.ids| && cfg.ids[i] < cfg.ids[j]
    {
      assert NodeInv(cfg, i, run[t].nodes[i]);
    }
    forall p | p in run[t].net && p.body.Vote?
      ensures p.src < |cfg.ids| && p.dst < |cfg.ids| && cfg.ids[p.src] > cfg.ids[p.dst]
    {
      assert PacketInv(cfg, p);
    }
  }

  // The source compares some terms as uint32_t and others as int32_t. Over a run no term is
  // ever negative, at a node or in flight, so that the two always agree.
  lemma TermsNeverNegative(cfg: Config, run: seq<State>, t: nat)
    requires IsRun(cfg, run) && t < |run|
    ensures forall i :: 0 <= i < |run[t].nodes| ==> run[t].nodes[i].term >= 0
    ensures forall p :: p in run[t].net ==> p.body.term >= 0
    ensures forall i, p :: 0 <= i < |run[t].nodes| && p in run[t].net ==>
      var mine, theirs := run[t].nodes[i].term, p.body.term;
      mine <= INT32_MAX && theirs <= INT32_MAX ==> (mine < theirs <==> ToU32(mine) < ToU32(theirs))
  {
    RunKeepsElection(cfg, run, t);
    forall i | 0 <= i < |run[t].nodes|
      ensures run[t].nodes[i].term >= 0
    {
      assert NodeInv(cfg, i, run[t].nodes[i]);
    }
    forall p | p in run[t].net
      ensures p.body.term >= 0
    {
      assert PacketInv(cfg, p);
    }
    hide IsRun, ElectionInv;
  }

  // Over any run each target's retransmission list is a duplicate-free list with an exact
  // counter, and losing the leader role empties every list and zeroes every counter.
  lemma ListsExactOverRuns(cfg: Config, run: seq<State>, t: nat, i: nat)
    requires IsRun(cfg, run) && t < |run| && i < |cfg.ids|
    ensures |run[t].nodes| == |cfg.ids| && run[t].nodes[i].Shaped() && ListsExact(run[t].nodes[i])
    ensures var n := StopLeader(run[t].nodes[i]);
      forall lid :: 0 <= lid < n.NumTargets() ==> n.retrans[lid] == [] && n.retransEntries[lid] == 0
  {
    RunKeepsElection(cfg, run, t);
    var n := run[t].nodes[i];
    assert NodeInv(cfg, i, n);
    assert forall lid :: 0 <= lid < n.NumTargets() ==> ListExact(n.retrans[lid], n.retransEntries[lid]);
  }

  lemma SameSize(cfg: Config, s: State)
    requires ElectionInv(cfg, s)
    ensures Shaped(cfg, s) && |s.nodes| == |cfg.ids|
  {
  }

  lemma {:induction false} TermsNeverDecrease(cfg: Config, run: seq<State>, t: nat, u: nat, i: nat)
    requires IsRun(cfg, run) && t <= u < |run| && i < |cfg.ids|
    ensures |run[t].nodes| == |run[u].nodes| == |cfg.ids|
    ensures run[t].nodes[i].term <= run[u].nodes[i].term
    decreases u
  {
    hide ElectionInv, Apply, Enabled;
    RunKeepsElection(cfg, run, t);
    SameSize(cfg, run[t]);
    if t < u {
      TermsNeverDecrease(cfg, run, t, u - 1, i);
      RunKeepsElection(cfg, run, u - 1);
      var step := StepAt(cfg, run, u);
      StepKeepsTerm(cfg, run[u - 1], step, i);
    }
  }
}
