/** State-machine safety over whole runs: what followers hand to their applications are
    prefixes of the one log clients wrote, whatever the network loses, repeats or reorders. */
module Safety {
  import opened Types
  import opened RingLogs
  import opened Nodes
  import opened Consensus
  import opened Replication
  import opened CandidateRole
  import opened FollowerRole
  import opened LeaderRole
  import opened Cluster
  import opened Election

  // ---------- logs against the client log ----------

  ghost predicate AgreesWith(received: map<int, Entry>, g: seq<Chunk>) {
    forall j :: j in received ==> 0 <= j < |g| && received[j].data == g[j]
  }

  ghost predicate Stands(l: RingLog, received: map<int, Entry>, g: seq<Chunk>) {
    Refines(l, received) && StableExact(l, received) && AgreesWith(received, g)
  }

  // A follower's ring stands for some part of the client log.
  ghost predicate FollowerLog(l: RingLog, g: seq<Chunk>) {
    (exists received :: Stands(l, received, g)) && |g| - 1 <= l.lastApplied + |l.slots|
  }

  // The leader's ring holds the last lap of the client log.
  ghost predicate LeaderLog(l: RingLog, g: seq<Chunk>) {
    && |l.slots| > 0
    && l.lastIdx == |g| - 1 <= INT32_MAX
    && -1 <= l.lastApplied == l.commitIdx <= l.lastIdx
    && l.rx == []
    && forall j :: 0 <= j <= l.lastIdx && j > l.lastIdx - |l.slots| ==> SlotAt(l.slots, j).data == g[j]
  }

  ghost predicate AppendSafe(b: Body, applied: int, g: seq<Chunk>)
    requires b.Append?
  {
    && b.prevLogIdx >= -1 && b.prevLogIdx + |b.entries| <= |g| - 1
    && forall k :: 0 <= k < |b.entries| && b.prevLogIdx + 1 + k > applied ==>
         b.entries[k] == g[b.prevLogIdx + 1 + k]
  }

  // ---------- a node that does not lead ----------

  lemma WrittenAgrees(received: map<int, Entry>, b: Body, term: int, applied: int, g: seq<Chunk>)
    requires b.Append? && AppendSafe(b, applied, g) && AgreesWith(received, g)
    requires b.prevLogIdx >= applied
    ensures AgreesWith(Written(received, b.entries, term, b.prevLogIdx + 1), g)
  {
    var r := Written(received, b.entries, term, b.prevLogIdx + 1);
    forall j | j in r
      ensures 0 <= j < |g| && r[j].data == g[j]
    {
      WrittenAt(received, b.entries, term, b.prevLogIdx + 1, j);
    }
  }

  // What one step may do to a follower's log.
  ghost predicate FollowerProgress(l: RingLog, l': RingLog, g: seq<Chunk>) {
    && FollowerLog(l', g)
    && |l'.slots| == |l.slots| && l'.lastApplied >= l.lastApplied && l'.stableIdx >= l.stableIdx
    && l.rx <= l'.rx
  }

  lemma AppendProgress(n: Node, b: Body, rid: nat, retransIdx: int, g: seq<Chunk>)
    requires n.Shaped() && b.Append? && FollowerLog(n.log, g) && |g| - 1 <= INT32_MAX
    requires AppendSafe(b, n.log.lastApplied, g)
    ensures var (n', out) := HandleAppendRpc(n, b, rid, retransIdx);
      && FollowerProgress(n.log, n'.log, g) && n'.log.commitIdx == n.log.commitIdx
      && (out.Reply? ==> out.body.AppendReply? && out.body.stableIdx == n'.log.stableIdx)
  {
    var received :| Stands(n.log, received, g);
    RefinesCursors(n.log, received);
    hide Refines, StableExact, AgreesWith, AppendCommands;
    var received' := HandleAppendKeeps(n, received, b, rid, retransIdx);
    if received' != received {
      WrittenAgrees(received, b, n.term, n.log.lastApplied, g);
    }
    assert Stands(HandleAppendRpc(n, b, rid, retransIdx).0.log, received', g);
  }

  lemma CommitProgress(n: Node, commitIdx: int, accepts: nat, g: seq<Chunk>)
    requires n.Shaped() && FollowerLog(n.log, g)
    ensures FollowerProgress(n.log, CommitOn(n, commitIdx, accepts).log, g)
  {
    var received :| Stands(n.log, received, g);
    CommitRefines(n.log, received, commitIdx, accepts);
    hide Refines, CommitLog, AgreesWith;
    assert Stands(CommitOn(n, commitIdx, accepts).log, received, g);
  }

  // The acknowledgement a handler leaves carries the stable index it ends with.
  ghost predicate AckExact(n': Node, out: Output) {
    out.Reply? && out.body.AppendReply? ==> out.body.stableIdx == n'.log.stableIdx
  }

  lemma AcceptLeaderKeepsLog(n: Node, lid: nat, rid: nat, term: int)
    requires n.Shaped() && lid < n.NumTargets()
    ensures AcceptLeader(n, lid, rid, term).log == n.log && AcceptLeader(n, lid, rid, term).Shaped()
  {
  }

  lemma ProgressTrans(l1: RingLog, l2: RingLog, l3: RingLog, g: seq<Chunk>)
    requires FollowerProgress(l1, l2, g) && FollowerProgress(l2, l3, g)
    ensures FollowerProgress(l1, l3, g)
  {
    hide FollowerLog;
  }

  lemma ProgressRefl(l: RingLog, g: seq<Chunk>)
    requires FollowerLog(l, g)
    ensures FollowerProgress(l, l, g)
  {
    hide FollowerLog;
  }

  lemma FollowerProcessProgress(n: Node, lid: nat, rid: nat, b: Body, retransIdx: int, accepts: nat, g: seq<Chunk>)
    requires n.Shaped() && lid < n.NumTargets()
    requires FollowerLog(n.log, g) && |g| - 1 <= INT32_MAX
    requires b.Append? ==> AppendSafe(b, n.log.lastApplied, g)
    ensures var (n', out) := FollowerProcessPkt(n, lid, rid, b, retransIdx, accepts);
      FollowerProgress(n.log, n'.log, g) && AckExact(n', out)
  {
    hide FollowerLog, HandleAppendRpc, FollowerProgress, CommitLog, AcceptLeader;
    ProgressRefl(n.log, g);
    match b
    case Alive(term, commitIdx, _, _) =>
      AcceptLeaderKeepsLog(n, lid, rid, term);
      CommitProgress(n, commitIdx, accepts, g);
      CommitProgress(AcceptLeader(n, lid, rid, term), commitIdx, accepts, g);
    case Append(term, _, _, _, commitIdx, _, _) =>
      AcceptLeaderKeepsLog(n, lid, rid, term);
      if term > n.term {
        AppendProgress(AcceptLeader(n, lid, rid, term), b, rid, retransIdx, g);
      } else {
        AppendProgress(n, b, rid, retransIdx, g);
        var n1 := HandleAppendRpc(n, b, rid, retransIdx).0;
        ProgressLog(n.log, n1.log, g);
        HandleAppendShaped(n, b, rid, retransIdx);
        CommitProgress(n1, commitIdx, accepts, g);
        ProgressTrans(n.log, n1.log, CommitOn(n1, commitIdx, accepts).log, g);
        CommitKeepsEnds(n1.log, commitIdx, accepts);
      }
    case Nomi(_, _, _, _) =>
    case Vote(_, _) =>
    case AppendReply(_, _, _, _) =>
  }

  lemma ProgressLog(l: RingLog, l': RingLog, g: seq<Chunk>)
    requires FollowerProgress(l, l', g)
    ensures FollowerLog(l', g)
  {
    hide FollowerLog;
  }

  lemma HandleAppendShaped(n: Node, b: Body, rid: nat, retransIdx: int)
    requires n.Shaped() && b.Append?
    ensures HandleAppendRpc(n, b, rid, retransIdx).0.Shaped()
  {
    hide AppendCommands;
  }

  lemma CandidateProcessProgress(n: Node, lid: nat, rid: nat, b: Body, retransIdx: int, g: seq<Chunk>)
    requires n.Shaped() && lid < n.NumTargets()
    requires FollowerLog(n.log, g) && |g| - 1 <= INT32_MAX
    requires b.Append? ==> AppendSafe(b, n.log.lastApplied, g)
    ensures var (n', out) := CandidateProcessPkt(n, lid, rid, b, retransIdx);
      FollowerProgress(n.log, n'.log, g) && AckExact(n', out)
  {
    hide FollowerLog, HandleAppendRpc, FollowerProgress;
    ProgressRefl(n.log, g);
    if b.Append? {
      AppendProgress(n, b, rid, retransIdx, g);
    }
  }

  // ---------- the leader ----------

  lemma EmptyFollowerLeads(l: RingLog)
    requires FollowerLog(l, [])
    ensures LeaderLog(l, []) && l.stableIdx == -1
  {
    var received :| Stands(l, received, []);
    assert l.lastIdx >= 0 ==> l.lastIdx in received;
  }

  lemma LeaderProcessKeepsLog(n: Node, lid: nat, rid: nat, b: Body, g: seq<Chunk>)
    requires NodeOk(n) && lid < n.NumTargets() && n.role == Leader && !b.Alive?
    requires LeaderLog(n.log, g)
    ensures var n' := LeaderProcessPkt(n, lid, rid, b);
      && n'.role == Leader && LeaderLog(n'.log, g) && n'.log.lastApplied >= n.log.lastApplied
      && n'.log.stableIdx == n.log.stableIdx
  {
    if b.AppendReply? {
      hide UpdateCommitIdx, LeaderLog;
      var matched := n.(matchIndex := n.matchIndex[lid := b.stableIdx]);
      assert ListsExact(matched) by {
        assert forall l :: 0 <= l < n.NumTargets() ==> ListExact(n.retrans[l], n.retransEntries[l]);
      }
      UpdateCommitKeepsLog(matched, g);
      UpdateCommitStep(matched);
    }
  }

  lemma UpdateCommitKeepsLog(n: Node, g: seq<Chunk>)
    requires NodeOk(n) && LeaderLog(n.log, g)
    ensures LeaderLog(UpdateCommitIdx(n).log, g)
    ensures UpdateCommitIdx(n).log.lastApplied >= n.log.lastApplied
  {
    UpdateCommitStep(n);
    CommitRuleClosedForm(n);
    var n' := UpdateCommitIdx(n);
    hide UpdateCommitIdx;
    forall j | 0 <= j <= n.log.lastIdx && j > n.log.lastIdx - |n.log.slots|
      ensures SlotAt(n'.log.slots, j).data == g[j]
    {
      assert SlotAt(n.log.slots, j).data == g[j];
    }
    if n'.log.commitIdx != n.log.commitIdx {
      assert MatchesUsable(n);
    }
  }

  lemma ClientAppendKeepsLog(n: Node, data: Chunk, g: seq<Chunk>)
    requires n.Shaped() && LeaderLog(n.log, g) && n.log.lastIdx + 1 <= INT32_MAX
    ensures var r := AppendCommand(n.log, data, n.term, n.log.lastIdx + 1);
      r.Some? && LeaderLog(r.value, g + [data]) && r.value.stableIdx == n.log.stableIdx
      && r.value.commitIdx == n.log.commitIdx
  {
    var idx := n.log.lastIdx + 1;
    var l' := AppendCommand(n.log, data, n.term, idx).value;
    forall j | 0 <= j <= idx && j > idx - |l'.slots|
      ensures SlotAt(l'.slots, j).data == (g + [data])[j]
    {
      if j < idx {
        if BufferIdx(|l'.slots|, j) == BufferIdx(|l'.slots|, idx) {
          RemainderInjective(j, idx, |l'.slots|);
        }
        assert SlotAt(n.log.slots, j).data == g[j];
      }
    }
  }

  // Whatever index is sent, the entries a follower could still accept are the client's.
  lemma SentIsSafe(n: Node, lid: nat, nextIndex: int, retrans: bool, maxPerPkt: nat, applied: int, g: seq<Chunk>)
    requires n.Shaped() && lid < n.NumTargets() && LeaderLog(n.log, g)
    requires |g| - 1 <= applied + |n.log.slots|
    ensures var out := SetupAppendMsg(n, lid, nextIndex, retrans, maxPerPkt).out;
      out.Some? ==> out.value.Append? && AppendSafe(out.value, applied, g) && out.value.commitIdx == n.log.commitIdx
  {
    hide SetupAppendMsg;
    SentShape(n, lid, nextIndex, retrans, maxPerPkt);
    var out := SetupAppendMsg(n, lid, nextIndex, retrans, maxPerPkt).out;
    if out.Some? {
      CopiesAreSafe(n.log, out.value, applied, g);
    }
  }

  lemma CopiesAreSafe(l: RingLog, b: Body, applied: int, g: seq<Chunk>)
    requires LeaderLog(l, g) && |g| - 1 <= applied + |l.slots|
    requires b.Append? && b.prevLogIdx >= -1 && b.prevLogIdx + |b.entries| <= l.lastIdx
    requires b.entries == Chunks(l.slots, b.prevLogIdx + 1, |b.entries|)
    ensures AppendSafe(b, applied, g)
  {
    forall k | 0 <= k < |b.entries| && b.prevLogIdx + 1 + k > applied
      ensures b.entries[k] == g[b.prevLogIdx + 1 + k]
    {
      assert b.entries[k] == SlotAt(l.slots, b.prevLogIdx + 1 + k).data;
    }
  }

  // ---------- the cluster ----------

  ghost predicate NodeSafe(n: Node, g: seq<Chunk>) {
    if n.role == Leader then LeaderLog(n.log, g) else FollowerLog(n.log, g)
  }

  ghost predicate PacketSafe(s: State, p: Packet) {
    && (p.body.Append? || p.body.Alive? ==> Leads(s, p.src))
    && (p.body.Append? ==>
         p.dst < |s.nodes| && AppendSafe(p.body, s.nodes[p.dst].log.lastApplied, s.clientLog))
  }

  ghost predicate SafetyInv(cfg: Config, s: State) {
    && ElectionInv(cfg, s) && AtMostOneLeads(s)
    && |s.clientLog| - 1 <= INT32_MAX
    && (forall i :: 0 <= i < |s.nodes| ==> NodeSafe(s.nodes[i], s.clientLog))
    && (forall p :: p in s.net ==> PacketSafe(s, p))
    && (s.clientLog != [] ==> exists i :: Leads(s, i))
  }

  // Replacing one node that stays safe and adding safe packets keeps the invariant.
  lemma ReassembleSafe(cfg: Config, s: State, s': State, i: nat)
    requires SafetyInv(cfg, s) && ElectionInv(cfg, s') && AtMostOneLeads(s') && i < |s.nodes|
    requires |s'.nodes| == |s.nodes| && s'.clientLog == s.clientLog
    requires forall j :: 0 <= j < |s.nodes| && j != i ==> s'.nodes[j] == s.nodes[j]
    requires NodeSafe(s'.nodes[i], s.clientLog)
    requires s.nodes[i].role == Leader ==> s'.nodes[i].role == Leader
    requires s'.nodes[i].log.lastApplied >= s.nodes[i].log.lastApplied
    requires forall p :: p in s'.net ==> p in s.net || PacketSafe(s', p)
    ensures SafetyInv(cfg, s')
  {
    hide ElectionInv, NodeSafe;
    forall p | p in s'.net
      ensures PacketSafe(s', p)
    {
      if p in s.net {
        assert PacketSafe(s, p);
      }
    }
    if s.clientLog != [] {
      var k :| Leads(s, k);
      assert Leads(s', k);
    }
  }

  lemma OneLeader(s: State, i: nat, j: nat)
    requires AtMostOneLeads(s) && Leads(s, i) && Leads(s, j)
    ensures i == j
  {
  }

  // What a delivered packet makes of its receiver.
  lemma ProcessSafe(cfg: Config, s: State, p: Packet, retransIdx: int, accepts: nat)
    requires SafetyInv(cfg, s) && Enabled(cfg, s, Deliver(p, retransIdx, accepts))
    requires AtMostOneLeads(OnDeliver(cfg, s, p, retransIdx, accepts))
    ensures var n := s.nodes[p.dst];
      LidOf(p.dst, p.src) < n.NumTargets() &&
      var (n', out) := Process(n, LidOf(p.dst, p.src), cfg.ids[p.src], p.body, retransIdx, accepts);
      && NodeSafe(n', s.clientLog) && (n.role == Leader ==> n'.role == Leader)
      && n'.log.lastApplied >= n.log.lastApplied && n'.log.stableIdx >= n.log.stableIdx && n.log.rx <= n'.log.rx
      && AckExact(n', out)
  {
    var i, n, g := p.dst, s.nodes[p.dst], s.clientLog;
    var lid, rid := LidOf(i, p.src), cfg.ids[p.src];
    assert NodeInv(cfg, i, n) && PacketInv(cfg, p) && PacketSafe(s, p) && NodeSafe(n, g);
    hide LeaderLog, FollowerLog, LeaderProcessPkt, FollowerProcessPkt, CandidateProcessPkt;
    ProcessStep(n, lid, rid, p.body, retransIdx, accepts);
    match n.role
    case Leader =>
      if p.body.Alive? {
        OneLeader(s, i, p.src);
      }
      LeaderProcessKeepsLog(n, lid, rid, p.body, g);
      LeaderKeepsRx(n, LeaderProcessPkt(n, lid, rid, p.body), g);
    case Follower =>
      FollowerProcessProgress(n, lid, rid, p.body, retransIdx, accepts, g);
      FollowerStep(n, lid, rid, p.body, retransIdx, accepts);
    case Candidate =>
      CandidateProcessProgress(n, lid, rid, p.body, retransIdx, g);
      if CandidateProcessPkt(n, lid, rid, p.body, retransIdx).0.role == Leader {
        WinnerSafe(cfg, s, p, retransIdx, accepts);
      }
  }

  lemma WinnerSafe(cfg: Config, s: State, p: Packet, retransIdx: int, accepts: nat)
    requires SafetyInv(cfg, s) && Enabled(cfg, s, Deliver(p, retransIdx, accepts))
    requires AtMostOneLeads(OnDeliver(cfg, s, p, retransIdx, accepts))
    requires s.nodes[p.dst].role == Candidate
    requires OnDeliver(cfg, s, p, retransIdx, accepts).nodes[p.dst].role == Leader
    ensures NodeSafe(OnDeliver(cfg, s, p, retransIdx, accepts).nodes[p.dst], s.clientLog)
  {
    var n, lid, rid := s.nodes[p.dst], LidOf(p.dst, p.src), cfg.ids[p.src];
    assert NodeInv(cfg, p.dst, n) && NodeSafe(n, s.clientLog);
    hide LeaderLog, FollowerLog, CandidateProcessPkt;
    CandidateStep(n, lid, rid, p.body, retransIdx);
    DeliverKeeps(cfg, s, p, retransIdx, accepts);
    var s' := OnDeliver(cfg, s, p, retransIdx, accepts);
    assert NodeInv(cfg, p.dst, s'.nodes[p.dst]);
    NewLeaderFindsNothing(cfg, s, s', p.dst);
    CandidateWinKeepsLog(n, lid, rid, p.body, retransIdx);
    EmptyFollowerLeads(n.log);
  }

  lemma LeaderKeepsRx(n: Node, n': Node, g: seq<Chunk>)
    requires LeaderLog(n.log, g) && LeaderLog(n'.log, g)
    ensures n.log.rx <= n'.log.rx
  {
  }

  lemma CandidateWinKeepsLog(n: Node, lid: nat, rid: nat, b: Body, retransIdx: int)
    requires n.Shaped() && lid < n.NumTargets() && b.Vote?
    ensures CandidateProcessPkt(n, lid, rid, b, retransIdx).0 == AcceptVote(n) && AcceptVote(n).log == n.log
  {
  }

  // Whoever wins while at most one node leads finds no other leader, so nobody has led
  // yet and no command was written.
  lemma NewLeaderFindsNothing(cfg: Config, s: State, s': State, i: nat)
    requires SafetyInv(cfg, s) && AtMostOneLeads(s')
    requires !Leads(s, i) && Leads(s', i)
    requires |s'.nodes| == |s.nodes| && forall k :: 0 <= k < |s.nodes| && k != i ==> s'.nodes[k] == s.nodes[k]
    ensures s.clientLog == [] && forall k :: !Leads(s, k)
  {
    forall k: nat
      ensures !Leads(s, k)
    {
      assert Leads(s, k) && k != i ==> Leads(s', k);
    }
  }

  lemma DeliverSafe(cfg: Config, s: State, p: Packet, retransIdx: int, accepts: nat)
    requires SafetyInv(cfg, s) && Enabled(cfg, s, Deliver(p, retransIdx, accepts))
    requires AtMostOneLeads(OnDeliver(cfg, s, p, retransIdx, accepts))
    ensures SafetyInv(cfg, OnDeliver(cfg, s, p, retransIdx, accepts))
  {
    SafeFacts(cfg, s);
    hide SafetyInv, Process, ElectionInv, NodeSafe, PacketSafe;
    DeliverKeeps(cfg, s, p, retransIdx, accepts);
    ProcessSafe(cfg, s, p, retransIdx, accepts);
    ProcessReplies(cfg, s, p, retransIdx, accepts);
    var s' := OnDeliver(cfg, s, p, retransIdx, accepts);
    ReplyPacketsSafe(cfg, s, s', p, retransIdx, accepts);
    ReassembleSafe(cfg, s, s', p.dst);
  }

  lemma SafeFacts(cfg: Config, s: State)
    requires SafetyInv(cfg, s)
    ensures Shaped(cfg, s) && ElectionInv(cfg, s) && AtMostOneLeads(s)
  {
  }

  // Replies are no APPEND and no ALIVE, so they promise nothing.
  lemma ReplyPacketsSafe(cfg: Config, s: State, s': State, p: Packet, retransIdx: int, accepts: nat)
    requires Shaped(cfg, s) && Enabled(cfg, s, Deliver(p, retransIdx, accepts))
    requires s' == OnDeliver(cfg, s, p, retransIdx, accepts)
    requires LidOf(p.dst, p.src) < s.nodes[p.dst].NumTargets()
    requires ReplyOk(s.nodes[p.dst], cfg.ids[p.src],
      Process(s.nodes[p.dst], LidOf(p.dst, p.src), cfg.ids[p.src], p.body, retransIdx, accepts).1)
    ensures forall q :: q in s'.net ==> q in s.net || PacketSafe(s', q)
  {
    hide Process;
  }

  lemma ProcessReplies(cfg: Config, s: State, p: Packet, retransIdx: int, accepts: nat)
    requires ElectionInv(cfg, s) && Enabled(cfg, s, Deliver(p, retransIdx, accepts))
    ensures LidOf(p.dst, p.src) < s.nodes[p.dst].NumTargets()
    ensures ReplyOk(s.nodes[p.dst], cfg.ids[p.src],
      Process(s.nodes[p.dst], LidOf(p.dst, p.src), cfg.ids[p.src], p.body, retransIdx, accepts).1)
  {
    hide Process;
    assert NodeInv(cfg, p.dst, s.nodes[p.dst]);
    ProcessStep(s.nodes[p.dst], LidOf(p.dst, p.src), cfg.ids[p.src], p.body, retransIdx, accepts);
  }

  lemma HeartbeatSafe(cfg: Config, s: State, i: nat)
    requires SafetyInv(cfg, s) && Enabled(cfg, s, Heartbeat(i))
    requires AtMostOneLeads(OnHeartbeat(cfg, s, i))
    ensures SafetyInv(cfg, OnHeartbeat(cfg, s, i))
  {
    HeartbeatKeeps(cfg, s, i);
    assert NodeInv(cfg, i, s.nodes[i]) && NodeSafe(s.nodes[i], s.clientLog);
    HeartbeatStep(s.nodes[i]);
    hide UpdateLeader, ElectionInv, FollowerLog;
    ReassembleSafe(cfg, s, OnHeartbeat(cfg, s, i), i);
  }

  lemma PollSafe(cfg: Config, s: State, i: nat, lid: nat)
    requires SafetyInv(cfg, s) && Enabled(cfg, s, Poll(i, lid))
    requires AtMostOneLeads(OnPoll(cfg, s, i, lid))
    ensures SafetyInv(cfg, OnPoll(cfg, s, i, lid))
  {
    LeaderStepsKeep(cfg, s, Poll(i, lid));
    assert NodeInv(cfg, i, s.nodes[i]) && NodeSafe(s.nodes[i], s.clientLog);
    PollStep(s.nodes[i], lid);
    hide CheckPending, ElectionInv, FollowerLog, LeaderLog;
    ReassembleSafe(cfg, s, OnPoll(cfg, s, i, lid), i);
  }

  lemma WorkSafe(cfg: Config, s: State, i: nat, w: Work)
    requires SafetyInv(cfg, s) && Enabled(cfg, s, DoWork(i, w))
    requires AtMostOneLeads(OnWork(cfg, s, i, w))
    ensures SafetyInv(cfg, OnWork(cfg, s, i, w))
  {
    LeaderStepsKeep(cfg, s, DoWork(i, w));
    var n := s.nodes[i];
    assert NodeInv(cfg, i, n) && NodeSafe(n, s.clientLog);
    WorkStep(n, w, cfg.maxPerPkt);
    var s' := OnWork(cfg, s, i, w);
    var sent := PrepareLogReplication(n, w, cfg.maxPerPkt);
    if sent.out.Some? {
      WorkPacketSafe(cfg, s, i, w);
    }
    hide PrepareLogReplication, ElectionInv, FollowerLog, LeaderLog;
    ReassembleSafe(cfg, s, s', i);
  }

  // The packet a work item produces is safe for its target, which does not lead.
  lemma WorkPacketSafe(cfg: Config, s: State, i: nat, w: Work)
    requires SafetyInv(cfg, s) && i < |s.nodes| && w.lid < s.nodes[i].NumTargets()
    ensures var out := PrepareLogReplication(s.nodes[i], w, cfg.maxPerPkt).out;
      out.Some? ==>
        && s.nodes[i].role == Leader && Peer(i, w.lid) < |s.nodes|
        && out.value.Append? && out.value.commitIdx == s.nodes[i].log.commitIdx
        && AppendSafe(out.value, s.nodes[Peer(i, w.lid)].log.lastApplied, s.clientLog)
  {
    var n, f := s.nodes[i], Peer(i, w.lid);
    assert NodeInv(cfg, i, n) && NodeInv(cfg, f, s.nodes[f]);
    assert NodeSafe(n, s.clientLog) && NodeSafe(s.nodes[f], s.clientLog);
    if n.role != Leader {
      return;
    }
    if s.nodes[f].role == Leader {
      OneLeader(s, i, f);
    }
    SentIsSafe(n, w.lid, w.nextIndex, w.retrans, cfg.maxPerPkt, s.nodes[f].log.lastApplied, s.clientLog);
  }

  lemma SetAliveSafe(cfg: Config, s: State, i: nat, lid: nat, alive: bool)
    requires SafetyInv(cfg, s) && Enabled(cfg, s, SetAlive(i, lid, alive))
    requires AtMostOneLeads(Apply(cfg, s, SetAlive(i, lid, alive)))
    ensures SafetyInv(cfg, Apply(cfg, s, SetAlive(i, lid, alive)))
  {
    StepKeeps(cfg, s, SetAlive(i, lid, alive));
    assert NodeSafe(s.nodes[i], s.clientLog);
    hide ElectionInv, FollowerLog, LeaderLog;
    ReassembleSafe(cfg, s, Apply(cfg, s, SetAlive(i, lid, alive)), i);
  }

  lemma SendAliveSafe(cfg: Config, s: State, i: nat, hbInterval: int)
    requires SafetyInv(cfg, s) && Enabled(cfg, s, SendAlive(i, hbInterval))
    requires AtMostOneLeads(Apply(cfg, s, SendAlive(i, hbInterval)))
    ensures SafetyInv(cfg, Apply(cfg, s, SendAlive(i, hbInterval)))
  {
    StepKeeps(cfg, s, SendAlive(i, hbInterval));
    hide ElectionInv, NodeSafe;
    ReassembleSafe(cfg, s, Apply(cfg, s, SendAlive(i, hbInterval)), i);
  }

  lemma LongerLogKeepsFollower(l: RingLog, g: seq<Chunk>, data: Chunk)
    requires FollowerLog(l, g) && |g| <= l.lastApplied + |l.slots|
    ensures FollowerLog(l, g + [data])
  {
    var received :| Stands(l, received, g);
    assert Stands(l, received, g + [data]);
  }

  lemma ClientAppendNodes(cfg: Config, s: State, i: nat, data: Chunk, j: nat)
    requires SafetyInv(cfg, s) && Enabled(cfg, s, ClientAppend(i, data)) && j < |s.nodes|
    ensures var s' := OnClientAppend(cfg, s, i, data);
      && s'.clientLog == s.clientLog + [data] && |s'.clientLog| - 1 <= INT32_MAX
      && Leads(s', i) && s'.nodes[i].log.lastApplied == s.nodes[i].log.lastApplied
      && NodeSafe(s'.nodes[j], s'.clientLog)
  {
    var n, g := s.nodes[i], s.clientLog;
    assert NodeInv(cfg, i, n) && NodeSafe(n, g);
    assert NodeInv(cfg, j, s.nodes[j]) && NodeSafe(s.nodes[j], g);
    assert n.log.lastIdx == |g| - 1;
    ClientAppendKeepsLog(n, data, g);
    AppendIndependent(n, data);
    hide LeaderLog, FollowerLog, AppendCommand;
    if j != i {
      if s.nodes[j].role == Leader {
        OneLeader(s, i, j);
      } else {
        LongerLogKeepsFollower(s.nodes[j].log, g, data);
      }
    }
  }

  // Packets stay safe while the command log grows at the leader's end.
  lemma LongerLogKeepsPackets(cfg: Config, s: State, s': State, i: nat)
    requires SafetyInv(cfg, s) && i < |s.nodes| == |s'.nodes| && s'.net == s.net
    requires s.clientLog <= s'.clientLog && s'.nodes[i].role == s.nodes[i].role
    requires s'.nodes[i].log.lastApplied == s.nodes[i].log.lastApplied
    requires forall j :: 0 <= j < |s.nodes| && j != i ==> s'.nodes[j] == s.nodes[j]
    ensures forall p :: p in s'.net ==> PacketSafe(s', p)
  {
    hide ElectionInv, NodeSafe, AtMostOneLeads;
    forall p | p in s'.net
      ensures PacketSafe(s', p)
    {
      assert PacketSafe(s, p);
    }
  }

  lemma ClientAppendSafe(cfg: Config, s: State, i: nat, data: Chunk)
    requires SafetyInv(cfg, s) && Enabled(cfg, s, ClientAppend(i, data))
    requires AtMostOneLeads(OnClientAppend(cfg, s, i, data))
    ensures SafetyInv(cfg, OnClientAppend(cfg, s, i, data))
  {
    LeaderStepsKeep(cfg, s, ClientAppend(i, data));
    var s' := OnClientAppend(cfg, s, i, data);
    ClientAppendNodes(cfg, s, i, data, i);
    hide ElectionInv, NodeSafe, PacketSafe, AppendCommand;
    forall j | 0 <= j < |s.nodes|
      ensures NodeSafe(s'.nodes[j], s'.clientLog)
    {
      ClientAppendNodes(cfg, s, i, data, j);
    }
    LongerLogKeepsPackets(cfg, s, s', i);
    assert Leads(s', i);
  }

  lemma AppendIndependent(n: Node, data: Chunk)
    requires n.Shaped()
    ensures var r := AppendCommand(n.log, data, n.term, n.log.lastIdx + 1);
      r.Some? ==> r.value.lastApplied == n.log.lastApplied
  {
  }

  lemma StepSafe(cfg: Config, s: State, step: Step)
    requires SafetyInv(cfg, s) && Enabled(cfg, s, step)
    requires AtMostOneLeads(Apply(cfg, s, step))
    ensures SafetyInv(cfg, Apply(cfg, s, step))
  {
    hide SafetyInv;
    match step
    case Deliver(p, retransIdx, accepts) => DeliverSafe(cfg, s, p, retransIdx, accepts);
    case Heartbeat(i) => HeartbeatSafe(cfg, s, i);
    case SendAlive(i, hbInterval) => SendAliveSafe(cfg, s, i, hbInterval);
    case SetAlive(i, lid, alive) => SetAliveSafe(cfg, s, i, lid, alive);
    case ClientAppend(i, data) => ClientAppendSafe(cfg, s, i, data);
    case Poll(i, lid) => PollSafe(cfg, s, i, lid);
    case DoWork(i, w) => WorkSafe(cfg, s, i, w);
  }

  lemma InitSafe(cfg: Config, s: State)
    requires Init(cfg, s)
    ensures SafetyInv(cfg, s)
  {
    InitElection(cfg, s);
    forall i | 0 <= i < |s.nodes|
      ensures NodeSafe(s.nodes[i], s.clientLog)
    {
      assert InitNode(cfg, i, s.nodes[i]);
      assert Stands(s.nodes[i].log, map[], []);
    }
  }

  lemma {:induction false} RunSafe(cfg: Config, run: seq<State>, t: nat)
    requires IsRun(cfg, run) && NeverTwoLead(run) && t < |run|
    ensures SafetyInv(cfg, run[t])
  {
    hide SafetyInv, Apply, Enabled;
    if t == 0 {
      InitSafe(cfg, run[0]);
    } else {
      RunSafe(cfg, run, t - 1);
      var step := StepAt(cfg, run, t);
      StepSafe(cfg, run[t - 1], step);
    }
  }

  lemma NodeFacts(cfg: Config, s: State, i: nat)
    requires ElectionInv(cfg, s) && i < |s.nodes|
    ensures NodeOk(s.nodes[i])
  {
    assert NodeInv(cfg, i, s.nodes[i]);
  }

  lemma StableAtLeastUnset(cfg: Config, s: State, j: nat)
    requires SafetyInv(cfg, s) && j < |s.nodes| && s.nodes[j].role != Leader
    ensures s.nodes[j].log.stableIdx >= -1
  {
    assert NodeSafe(s.nodes[j], s.clientLog);
    var received :| Stands(s.nodes[j].log, received, s.clientLog);
    RefinesCursors(s.nodes[j].log, received);
  }

  // A node that begins to lead finds no command written.
  lemma NewLeaderHasNothing(cfg: Config, s: State, step: Step, i: nat)
    requires SafetyInv(cfg, s) && Enabled(cfg, s, step) && AtMostOneLeads(Apply(cfg, s, step))
    requires i < |s.nodes| && !Leads(s, i) && Leads(Apply(cfg, s, step), i)
    ensures Apply(cfg, s, step).clientLog == []
  {
    hide SafetyInv, ElectionInv, NodeSafe, Process, UpdateLeader, CheckPending, PrepareLogReplication;
    SafeFacts(cfg, s);
    NodeFacts(cfg, s, i);
    match step
    case Deliver(_, _, _) => NewLeaderFindsNothing(cfg, s, Apply(cfg, s, step), i);
    case Heartbeat(k) => HeartbeatStep(s.nodes[i]);
    case Poll(k, lid) => if k == i { PollStep(s.nodes[k], lid); }
    case DoWork(k, w) => if k == i { WorkStep(s.nodes[k], w, cfg.maxPerPkt); }
    case SendAlive(_, _) =>
    case SetAlive(_, _, _) =>
    case ClientAppend(_, _) =>
  }

  // No step takes back what a node has delivered.
  lemma StepGrowsRx(cfg: Config, s: State, step: Step, i: nat)
    requires SafetyInv(cfg, s) && Enabled(cfg, s, step) && i < |s.nodes|
    requires AtMostOneLeads(Apply(cfg, s, step))
    ensures |Apply(cfg, s, step).nodes| == |s.nodes|
    ensures s.nodes[i].log.rx <= Apply(cfg, s, step).nodes[i].log.rx
  {
    hide SafetyInv, ElectionInv, NodeSafe, AckExact, Process, UpdateLeader, CheckPending, PrepareLogReplication;
    SafeFacts(cfg, s);
    NodeFacts(cfg, s, i);
    hide NodeInv, EndTermBounded, ListsExact;
    match step
    case Deliver(p, retransIdx, accepts) =>
      if p.dst == i { ProcessSafe(cfg, s, p, retransIdx, accepts); }
    case Heartbeat(k) => if k == i { HeartbeatStep(s.nodes[i]); }
    case Poll(k, lid) => if k == i { PollStep(s.nodes[i], lid); }
    case DoWork(k, w) => if k == i { WorkStep(s.nodes[i], w, cfg.maxPerPkt); }
    case SendAlive(_, _) =>
    case SetAlive(_, _, _) =>
    case ClientAppend(_, _) =>
  }

  // ---------- main results ----------

  ghost function Delivered(s: State, i: nat): seq<Chunk> {
    if i < |s.nodes| then s.nodes[i].log.rx else []
  }

  lemma SafeNodeDeliversPrefix(n: Node, g: seq<Chunk>)
    requires NodeSafe(n, g)
    ensures n.log.rx <= g
    ensures n.role != Leader ==> |n.log.rx| == n.log.lastApplied + 1
  {
    if n.role != Leader {
      var received :| Stands(n.log, received, g);
      if n.log.rx != [] {
        assert n.log.lastApplied in received;
      }
    }
  }

  // At every moment of every run in which two nodes never lead at once, what a node has
  // handed to its application is a prefix of the commands clients wrote; for a follower it
  // is exactly entries 0..last_applied.
  lemma DeliveredIsPrefix(cfg: Config, run: seq<State>, t: nat, i: nat)
    requires IsRun(cfg, run) && NeverTwoLead(run) && t < |run| && i < |cfg.ids|
    ensures i < |run[t].nodes|
    ensures Delivered(run[t], i) <= run[t].clientLog
    ensures !Leads(run[t], i) ==> |Delivered(run[t], i)| == run[t].nodes[i].log.lastApplied + 1
  {
    RunSafe(cfg, run, t);
    assert NodeSafe(run[t].nodes[i], run[t].clientLog);
    SafeNodeDeliversPrefix(run[t].nodes[i], run[t].clientLog);
  }

  lemma StepGrowsClientLog(cfg: Config, s: State, step: Step)
    requires Shaped(cfg, s) && Enabled(cfg, s, step)
    ensures s.clientLog <= Apply(cfg, s, step).clientLog
  {
    hide Process, UpdateLeader, CheckPending, PrepareLogReplication;
  }

  lemma {:induction false} ClientLogGrows(cfg: Config, run: seq<State>, t: nat, u: nat)
    requires IsRun(cfg, run) && t <= u < |run|
    ensures run[t].clientLog <= run[u].clientLog
    decreases u
  {
    hide Apply, Enabled;
    if t < u {
      ClientLogGrows(cfg, run, t, u - 1);
      var step := StepAt(cfg, run, u);
      StepGrowsClientLog(cfg, run[u - 1], step);
    }
  }

  lemma PrefixesCompare(a: seq<Chunk>, b: seq<Chunk>, g: seq<Chunk>)
    requires a <= g && b <= g
    ensures a <= b || b <= a
  {
    assert a == g[..|a|] && b == g[..|b|];
  }

  // State-machine safety: while two nodes never lead at once, what any node has delivered
  // by any moment of a run and what any node has delivered by any other never disagree.
  lemma StateMachineSafety(cfg: Config, run: seq<State>, t: nat, i: nat, u: nat, j: nat)
    requires IsRun(cfg, run) && NeverTwoLead(run)
    requires t < |run| && u < |run| && i < |cfg.ids| && j < |cfg.ids|
    ensures Delivered(run[t], i) <= Delivered(run[u], j) || Delivered(run[u], j) <= Delivered(run[t], i)
  {
    DeliveredIsPrefix(cfg, run, t, i);
    DeliveredIsPrefix(cfg, run, u, j);
    if t <= u {
      ClientLogGrows(cfg, run, t, u);
      PrefixesCompare(Delivered(run[t], i), Delivered(run[u], j), run[u].clientLog);
    } else {
      ClientLogGrows(cfg, run, u, t);
      PrefixesCompare(Delivered(run[t], i), Delivered(run[u], j), run[t].clientLog);
    }
  }

  // Delivery is final: what a node has delivered stays a prefix of what it delivers later.
  lemma {:induction false} DeliveryIsFinal(cfg: Config, run: seq<State>, t: nat, u: nat, i: nat)
    requires IsRun(cfg, run) && NeverTwoLead(run) && t <= u < |run| && i < |cfg.ids|
    ensures Delivered(run[t], i) <= Delivered(run[u], i)
    decreases u
  {
    hide IsRun, SafetyInv, Apply, Enabled;
    if t < u {
      DeliveryIsFinal(cfg, run, t, u - 1, i);
      RunSafe(cfg, run, u - 1);
      SafeFacts(cfg, run[u - 1]);
      var step := StepAt(cfg, run, u);
      StepGrowsRx(cfg, run[u - 1], step, i);
    }
  }
}
