/** What a leader sends in the course of a run: it is ready to send at every moment, and
    repeated sends to a target carry every command that target has not applied. */
module Backlog {
  import opened Types
  import opened RingLogs
  import opened Nodes
  import opened Consensus
  import opened Replication
  import opened CandidateRole
  import opened FollowerRole
  import opened LeaderRole
  import opened Cluster
  import opened Election
  import opened Safety

  // Every entry a leader holds has the leader's term, and no target is due an index beyond the
  // log's end.
  ghost predicate Supplied(n: Node)
    requires n.Shaped()
  {
    && (forall j :: 0 <= j <= n.log.lastIdx ==> SlotAt(n.log.slots, j).term == n.term)
    && (forall lid :: 0 <= lid < n.NumTargets() ==> 0 <= n.nextIndex[lid] <= n.log.lastIdx + 1)
  }

  ghost predicate NodeSupplied(n: Node) {
    n.Shaped() && (n.role == Leader ==> Supplied(n))
  }

  // A refusal names an index the leader may go on from.
  ghost predicate RefusalOk(b: Body) {
    b.AppendReply? && b.success == 0 ==> b.loggedIdx >= -1
  }

  // An APPEND in flight is complete and names its sender's term, which is also the term the
  // sender has written every entry with.
  ghost predicate AppendOk(s: State, p: Packet) {
    p.body.Append? ==>
      && p.src < |s.nodes| && p.body.term == p.body.prevLogTerm == s.nodes[p.src].term
      && p.body.entries != []
      && p.body.pktSize == ASGARD_PROTO_CON_AE_BASE_SZ + |p.body.entries| * AE_ENTRY_SIZE
  }

  ghost predicate BacklogInv(cfg: Config, s: State) {
    && SafetyInv(cfg, s)
    && (forall i :: 0 <= i < |s.nodes| ==> NodeSupplied(s.nodes[i]))
    && (forall p :: p in s.net ==> RefusalOk(p.body) && AppendOk(s, p))
  }

  lemma ReassembleBacklog(cfg: Config, s: State, s': State, i: nat)
    requires BacklogInv(cfg, s) && SafetyInv(cfg, s') && i < |s.nodes| == |s'.nodes|
    requires forall j :: 0 <= j < |s.nodes| && j != i ==> s'.nodes[j] == s.nodes[j]
    requires NodeSupplied(s'.nodes[i])
    requires s.nodes[i].role == Leader ==> s'.nodes[i].term == s.nodes[i].term
    requires forall p :: p in s'.net ==> p in s.net || (RefusalOk(p.body) && AppendOk(s', p))
    ensures BacklogInv(cfg, s')
  {
    forall p | p in s'.net
      ensures RefusalOk(p.body) && AppendOk(s', p)
    {
      if p in s.net {
        InFlightFacts(cfg, s, p);
      }
    }
    hide SafetyInv, NodeSupplied;
  }

  lemma BacklogFacts(cfg: Config, s: State, i: nat)
    requires BacklogInv(cfg, s) && i < |s.nodes|
    ensures Shaped(cfg, s) && SafetyInv(cfg, s) && ElectionInv(cfg, s) && AtMostOneLeads(s)
    ensures NodeInv(cfg, i, s.nodes[i]) && NodeSupplied(s.nodes[i]) && NodeSafe(s.nodes[i], s.clientLog)
  {
  }

  lemma InFlightFacts(cfg: Config, s: State, p: Packet)
    requires BacklogInv(cfg, s) && p in s.net
    ensures PacketInv(cfg, p) && PacketSafe(s, p) && RefusalOk(p.body) && AppendOk(s, p)
  {
  }

  // ---------- one node ----------

  lemma LeaderStaysSupplied(n: Node, lid: nat, rid: nat, b: Body)
    requires NodeOk(n) && lid < n.NumTargets() && n.role == Leader && !b.Alive?
    requires Supplied(n) && RefusalOk(b)
    ensures LeaderProcessPkt(n, lid, rid, b).Shaped() && Supplied(LeaderProcessPkt(n, lid, rid, b))
    ensures LeaderProcessPkt(n, lid, rid, b).term == n.term
  {
    if b.AppendReply? {
      var matched := n.(matchIndex := n.matchIndex[lid := b.stableIdx]);
      assert ListsExact(matched) by {
        assert forall l :: 0 <= l < n.NumTargets() ==> ListExact(n.retrans[l], n.retransEntries[l]);
      }
      UpdateCommitStep(matched);
      hide UpdateCommitIdx;
      var n' := LeaderProcessPkt(n, lid, rid, b);
      forall j | 0 <= j <= n.log.lastIdx
        ensures SlotAt(n'.log.slots, j).term == n.term
      {
        assert SlotAt(n.log.slots, j).term == n.term;
      }
    }
  }

  lemma WriterStaysSupplied(n: Node, data: Chunk)
    requires NodeOk(n) && Supplied(n)
    ensures var r := AppendCommand(n.log, data, n.term, n.log.lastIdx + 1);
      r.Some? ==> n.(log := r.value).Shaped() && Supplied(n.(log := r.value))
  {
    var idx, r := n.log.lastIdx + 1, AppendCommand(n.log, data, n.term, n.log.lastIdx + 1);
    hide BufferIdx;
    if r.Some? {
      forall j | 0 <= j <= idx
        ensures SlotAt(r.value.slots, j).term == n.term
      {
        assert j < idx ==> SlotAt(n.log.slots, j).term == n.term;
      }
    }
  }

  lemma SameSupply(n: Node, n': Node)
    requires NodeSupplied(n) && n'.Shaped()
    requires n'.role == n.role && n'.log == n.log && n'.nextIndex == n.nextIndex && n'.peers == n.peers
    requires n'.term == n.term
    ensures NodeSupplied(n')
  {
  }

  lemma SenderStaysSupplied(n: Node, w: Work, maxPerPkt: nat)
    requires NodeOk(n) && w.lid < n.NumTargets() && NodeSupplied(n)
    ensures var sent := PrepareLogReplication(n, w, maxPerPkt);
      && NodeSupplied(sent.node)
      && (sent.out.Some? ==>
           var b := sent.out.value;
           && b.Append? && b.term == b.prevLogTerm == n.term && b.entries != []
           && b.pktSize == ASGARD_PROTO_CON_AE_BASE_SZ + |b.entries| * AE_ENTRY_SIZE)
  {
    SentShape(n, w.lid, w.nextIndex, w.retrans, maxPerPkt);
    hide GetPrevLogTerm, Chunks;
  }

  // A refusal carries the stable index of the node that refuses.
  lemma RefusalCarriesStable(n: Node, lid: nat, rid: nat, b: Body, retransIdx: int, accepts: nat)
    requires n.Shaped() && lid < n.NumTargets()
    ensures var out := Process(n, lid, rid, b, retransIdx, accepts).1;
      out.Reply? && out.body.AppendReply? && out.body.success == 0 ==>
        n.role != Leader && out.body.loggedIdx == n.log.stableIdx
  {
    hide AppendCommands, CommitLog, LeaderProcessPkt;
  }

  // ---------- steps ----------

  lemma ReceiverIsSupplied(cfg: Config, s: State, p: Packet, retransIdx: int, accepts: nat)
    requires BacklogInv(cfg, s) && Enabled(cfg, s, Deliver(p, retransIdx, accepts))
    requires AtMostOneLeads(OnDeliver(cfg, s, p, retransIdx, accepts))
    ensures var n' := OnDeliver(cfg, s, p, retransIdx, accepts).nodes[p.dst];
      NodeSupplied(n') && (s.nodes[p.dst].role == Leader ==> n'.term == s.nodes[p.dst].term)
  {
    var i, n, lid, rid := p.dst, s.nodes[p.dst], LidOf(p.dst, p.src), cfg.ids[p.src];
    var s' := OnDeliver(cfg, s, p, retransIdx, accepts);
    hide BacklogInv, SafetyInv, Supplied, LeaderProcessPkt, FollowerProcessPkt, CandidateProcessPkt;
    BacklogFacts(cfg, s, i);
    InFlightFacts(cfg, s, p);
    ProcessStep(n, lid, rid, p.body, retransIdx, accepts);
    if n.role == Leader {
      if p.body.Alive? {
        OneLeader(s, i, p.src);
      }
      LeaderStaysSupplied(n, lid, rid, p.body);
    } else if s'.nodes[i].role == Leader {
      NewLeaderFindsNothing(cfg, s, s', i);
      EmptyFollowerLeads(n.log);
      WinnerIsSupplied(n, lid, rid, p.body, retransIdx);
    }
  }

  lemma WinnerIsSupplied(n: Node, lid: nat, rid: nat, b: Body, retransIdx: int)
    requires n.Shaped() && lid < n.NumTargets() && b.Vote? && n.votes + 1 == n.NumTargets()
    requires LeaderLog(n.log, []) && n.log.stableIdx == -1
    ensures CandidateProcessPkt(n, lid, rid, b, retransIdx).0.Shaped()
    ensures Supplied(CandidateProcessPkt(n, lid, rid, b, retransIdx).0)
  {
  }

  lemma DeliverBacklog(cfg: Config, s: State, p: Packet, retransIdx: int, accepts: nat)
    requires BacklogInv(cfg, s) && Enabled(cfg, s, Deliver(p, retransIdx, accepts))
    requires AtMostOneLeads(OnDeliver(cfg, s, p, retransIdx, accepts))
    ensures BacklogInv(cfg, OnDeliver(cfg, s, p, retransIdx, accepts))
  {
    hide BacklogInv, SafetyInv, Process, NodeSupplied, NodeSafe;
    BacklogFacts(cfg, s, p.dst);
    DeliverSafe(cfg, s, p, retransIdx, accepts);
    ReceiverIsSupplied(cfg, s, p, retransIdx, accepts);
    ProcessReplies(cfg, s, p, retransIdx, accepts);
    RefusalCarriesStable(s.nodes[p.dst], LidOf(p.dst, p.src), cfg.ids[p.src], p.body, retransIdx, accepts);
    if !Leads(s, p.dst) {
      StableAtLeastUnset(cfg, s, p.dst);
    }
    ReassembleBacklog(cfg, s, OnDeliver(cfg, s, p, retransIdx, accepts), p.dst);
  }

  lemma OtherStepBacklog(cfg: Config, s: State, step: Step)
    requires BacklogInv(cfg, s) && Enabled(cfg, s, step) && !step.Deliver?
    requires AtMostOneLeads(Apply(cfg, s, step))
    ensures BacklogInv(cfg, Apply(cfg, s, step))
  {
    hide BacklogInv, SafetyInv, ElectionInv, NodeSafe, UpdateLeader, CheckPending, PrepareLogReplication, AppendCommand;
    BacklogFacts(cfg, s, step.i);
    StepSafe(cfg, s, step);
    var n' := Apply(cfg, s, step).nodes[step.i];
    match step {
      case Heartbeat(i) =>
        HeartbeatStep(s.nodes[i]);
        assert NodeSupplied(n');
      case Poll(i, lid) =>
        PollStep(s.nodes[i], lid);
        SameSupply(s.nodes[i], n');
      case DoWork(i, w) =>
        WorkStep(s.nodes[i], w, cfg.maxPerPkt);
        SenderStaysSupplied(s.nodes[i], w, cfg.maxPerPkt);
        assert NodeSupplied(n') && n'.term == s.nodes[i].term;
      case ClientAppend(i, data) =>
        WriterStaysSupplied(s.nodes[i], data);
        assert NodeSupplied(n');
      case SendAlive(_, _) =>
      case SetAlive(i, _, _) => SameSupply(s.nodes[i], n');
    }
    ReassembleBacklog(cfg, s, Apply(cfg, s, step), step.i);
  }

  lemma StepBacklog(cfg: Config, s: State, step: Step)
    requires BacklogInv(cfg, s) && Enabled(cfg, s, step)
    requires AtMostOneLeads(Apply(cfg, s, step))
    ensures BacklogInv(cfg, Apply(cfg, s, step))
  {
    hide BacklogInv;
    match step
    case Deliver(p, retransIdx, accepts) => DeliverBacklog(cfg, s, p, retransIdx, accepts);
    case _ => OtherStepBacklog(cfg, s, step);
  }

  lemma {:induction false} RunBacklog(cfg: Config, run: seq<State>, t: nat)
    requires IsRun(cfg, run) && NeverTwoLead(run) && t < |run|
    ensures BacklogInv(cfg, run[t])
  {
    hide BacklogInv, Apply, Enabled;
    if t == 0 {
      InitBacklog(cfg, run[0]);
    } else {
      RunBacklog(cfg, run, t - 1);
      var step := StepAt(cfg, run, t);
      StepBacklog(cfg, run[t - 1], step);
    }
  }

  lemma InitBacklog(cfg: Config, s: State)
    requires Init(cfg, s)
    ensures BacklogInv(cfg, s)
  {
    InitSafe(cfg, s);
    forall i | 0 <= i < |s.nodes|
      ensures NodeSupplied(s.nodes[i])
    {
      assert InitNode(cfg, i, s.nodes[i]);
    }
  }

  // ---------- main results ----------

  // At every moment of a run with a single leader, that leader is ready to send from any
  // index, and next_index lies within the log or just past it for every target.
  lemma LeaderIsReady(cfg: Config, run: seq<State>, t: nat, i: nat, lid: nat)
    requires IsRun(cfg, run) && NeverTwoLead(run) && t < |run| && Leads(run[t], i)
    requires lid < run[t].nodes[i].NumTargets()
    ensures ReadyToSend(run[t].nodes[i], lid) && cfg.maxPerPkt > 0
    ensures run[t].nodes[i].nextIndex[lid] <= |run[t].clientLog|
    ensures forall first :: first >= 0 ==> SendsFrom(run[t].nodes[i], first)
  {
    RunBacklog(cfg, run, t);
    hide IsRun, BacklogInv;
    BacklogFacts(cfg, run[t], i);
  }

  // So repeated sends to a target, in consecutive messages, reach to the end of what clients
  // wrote, and at each index the target has not applied they carry the client's command.
  lemma BacklogIsServed(cfg: Config, run: seq<State>, t: nat, i: nat, lid: nat)
    requires IsRun(cfg, run) && NeverTwoLead(run) && t < |run| && Leads(run[t], i)
    requires lid < run[t].nodes[i].NumTargets()
    ensures ReadyToSend(run[t].nodes[i], lid) && cfg.maxPerPkt > 0 && Peer(i, lid) < |run[t].nodes|
    ensures var n, f, g := run[t].nodes[i], run[t].nodes[Peer(i, lid)], run[t].clientLog;
      var next, msgs := n.nextIndex[lid], SendAll(n, lid, cfg.maxPerPkt);
      && Consecutive(msgs, next, cfg.maxPerPkt)
      && next + |AllEntries(msgs)| == |g|
      && forall k :: next <= k < |g| && k > f.log.lastApplied ==> AllEntries(msgs)[k - next] == g[k]
  {
    hide IsRun, BacklogInv, SafetyInv, ElectionInv, SendAll, ReadyToSend, Consecutive, AllEntries;
    LeaderIsReady(cfg, run, t, i, lid);
    RunBacklog(cfg, run, t);
    var s, n, f := run[t], run[t].nodes[i], Peer(i, lid);
    BacklogFacts(cfg, s, i);
    BacklogFacts(cfg, s, f);
    if Leads(s, f) {
      OneLeader(s, i, f);
    }
    ChunksTileBacklog(n, lid, cfg.maxPerPkt);
    LaterEntriesAreClients(n, s.nodes[f].log.lastApplied, n.nextIndex[lid], s.clientLog);
  }

  lemma LaterEntriesAreClients(n: Node, applied: int, next: nat, g: seq<Chunk>)
    requires n.Shaped() && LeaderLog(n.log, g) && |g| - 1 <= applied + |n.log.slots| && next <= |g|
    ensures forall k :: next <= k < |g| && k > applied ==> Chunks(n.log.slots, next, |g| - next)[k - next] == g[k]
  {
  }
}
