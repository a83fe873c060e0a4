/** A cluster of nodes over a network that may lose, duplicate and reorder packets: every
    packet ever sent stays deliverable, any number of times and in any order. */
module Cluster {
  import opened Types
  import opened RingLogs
  import opened Nodes
  import opened Consensus
  import opened Replication
  import opened CandidateRole
  import opened FollowerRole
  import opened LeaderRole

  // ids holds the cluster id of each node; votesOnce restricts the network to one counted
  // vote per target between vote resets, and allAlive keeps the failure detector silent.
  datatype Config = Config(ids: seq<nat>, maxEntries: nat, maxPerPkt: nat, votesOnce: bool, allAlive: bool)
  {
    ghost predicate Valid() {
      && maxEntries > 0 && maxPerPkt > 0
      && forall i, j :: 0 <= i < j < |ids| ==> ids[i] != ids[j]
    }
  }

  datatype Packet = Packet(src: nat, dst: nat, body: Body)

  // voters and clientLog are history: who was counted since a node's votes were last
  // reset, and the commands clients handed to the leader.
  datatype State = State(
    nodes: seq<Node>,
    net: set<Packet>,
    work: set<(nat, Work)>,
    voters: seq<seq<nat>>,
    clientLog: seq<Chunk>)

  // Node i lists all others as its targets, in node order.
  function Peer(i: nat, lid: nat): nat {
    if lid < i then lid else lid + 1
  }

  function LidOf(i: nat, j: nat): nat
    requires i != j
  {
    if j < i then j else j - 1
  }

  // ---------- steps ----------

  // consensus_post_payload
  function Process(n: Node, lid: nat, rid: nat, b: Body, retransIdx: int, accepts: nat): (Node, Output)
    requires n.Shaped() && lid < n.NumTargets()
  {
    match n.role
    case Follower => FollowerProcessPkt(n, lid, rid, b, retransIdx, accepts)
    case Candidate => CandidateProcessPkt(n, lid, rid, b, retransIdx)
    case Leader => (LeaderProcessPkt(n, lid, rid, b), Silent)
  }

  function Emit(count: nat, src: nat, replyTo: nat, out: Output): set<Packet> {
    match out
    case Silent => {}
    case Reply(b) => {Packet(src, replyTo, b)}
    case Broadcast(b) => set j: nat | 0 <= j < count && j != src :: Packet(src, j, b)
  }

  function CountVoters(n: Node, n': Node, voters: seq<nat>, src: nat): seq<nat> {
    if n'.votes == 0 then [] else if n'.votes == n.votes + 1 then voters + [src] else voters
  }

  datatype Step =
    | Deliver(p: Packet, retransIdx: int, accepts: nat)
    | Heartbeat(i: nat)
    | SendAlive(i: nat, hbInterval: int)
    | SetAlive(i: nat, lid: nat, alive: bool)
    | ClientAppend(i: nat, data: Chunk)
    | Poll(i: nat, lid: nat)
    | DoWork(i: nat, w: Work)

  ghost predicate NodeShaped(cfg: Config, i: nat, n: Node) {
    n.Shaped() && n.NumTargets() == |cfg.ids| - 1 && |n.log.slots| == cfg.maxEntries
  }

  ghost predicate Shaped(cfg: Config, s: State) {
    && cfg.Valid()
    && |s.nodes| == |cfg.ids| && |s.voters| == |cfg.ids|
    && forall i :: 0 <= i < |s.nodes| ==> NodeShaped(cfg, i, s.nodes[i])
  }

  // A leader takes a command only while every follower's ring has room for it.
  ghost predicate RoomFor(cfg: Config, s: State, i: nat, idx: int)
    requires Shaped(cfg, s)
  {
    idx <= INT32_MAX &&
    forall f :: 0 <= f < |s.nodes| && f != i ==> idx <= s.nodes[f].log.lastApplied + cfg.maxEntries
  }

  ghost predicate Enabled(cfg: Config, s: State, step: Step)
    requires Shaped(cfg, s)
  {
    match step
    case Deliver(p, _, _) =>
      && p in s.net && p.src < |s.nodes| && p.dst < |s.nodes| && p.src != p.dst
      && (cfg.votesOnce && p.body.Vote? && s.nodes[p.dst].role == Candidate ==> p.src !in s.voters[p.dst])
    case Heartbeat(i) => i < |s.nodes| && s.nodes[i].role != Leader
    case SendAlive(i, _) => i < |s.nodes| && s.nodes[i].role == Leader
    case SetAlive(i, lid, alive) => i < |s.nodes| && lid < s.nodes[i].NumTargets() && (cfg.allAlive ==> alive)
    case ClientAppend(i, _) =>
      i < |s.nodes| && s.nodes[i].role == Leader && RoomFor(cfg, s, i, s.nodes[i].log.lastIdx + 1)
    case Poll(i, lid) => i < |s.nodes| && lid < s.nodes[i].NumTargets()
    case DoWork(i, w) => i < |s.nodes| && w.lid < s.nodes[i].NumTargets() && (i, w) in s.work
  }

  ghost function OnDeliver(cfg: Config, s: State, p: Packet, retransIdx: int, accepts: nat): State
    requires Shaped(cfg, s) && Enabled(cfg, s, Deliver(p, retransIdx, accepts))
  {
    var n := s.nodes[p.dst];
    var (n', out) := Process(n, LidOf(p.dst, p.src), cfg.ids[p.src], p.body, retransIdx, accepts);
    s.(nodes := s.nodes[p.dst := n'],
       net := s.net + Emit(|s.nodes|, p.dst, p.src, out),
       voters := s.voters[p.dst := CountVoters(n, n', s.voters[p.dst], p.src)])
  }

  ghost function OnHeartbeat(cfg: Config, s: State, i: nat): State
    requires Shaped(cfg, s) && i < |s.nodes|
  {
    var n := s.nodes[i];
    var (n', out) := UpdateLeader(n);
    s.(nodes := s.nodes[i := n'],
       net := s.net + Emit(|s.nodes|, i, i, out),
       voters := s.voters[i := CountVoters(n, n', s.voters[i], i)])
  }

  function AliveBody(n: Node, hbInterval: int): Body {
    Alive(n.term, n.log.commitIdx, n.log.stableIdx, hbInterval)
  }

  ghost function OnClientAppend(cfg: Config, s: State, i: nat, data: Chunk): State
    requires Shaped(cfg, s) && i < |s.nodes|
  {
    var n := s.nodes[i];
    var r := AppendCommand(n.log, data, n.term, n.log.lastIdx + 1);
    if r.None? then s
    else s.(nodes := s.nodes[i := n.(log := r.value)], clientLog := s.clientLog + [data])
  }

  ghost function OnPoll(cfg: Config, s: State, i: nat, lid: nat): State
    requires Shaped(cfg, s) && i < |s.nodes| && lid < s.nodes[i].NumTargets()
  {
    var (n', w) := CheckPending(s.nodes[i], lid);
    s.(nodes := s.nodes[i := n'], work := s.work + (if w.Some? then {(i, w.value)} else {}))
  }

  ghost function OnWork(cfg: Config, s: State, i: nat, w: Work): State
    requires Shaped(cfg, s) && i < |s.nodes| && w.lid < s.nodes[i].NumTargets()
  {
    var sent := PrepareLogReplication(s.nodes[i], w, cfg.maxPerPkt);
    s.(nodes := s.nodes[i := sent.node],
       net := s.net + (if sent.out.Some? then {Packet(i, Peer(i, w.lid), sent.out.value)} else {}))
  }

  ghost function Apply(cfg: Config, s: State, step: Step): State
    requires Shaped(cfg, s) && Enabled(cfg, s, step)
  {
    match step
    case Deliver(p, retransIdx, accepts) => OnDeliver(cfg, s, p, retransIdx, accepts)
    case Heartbeat(i) => OnHeartbeat(cfg, s, i)
    case SendAlive(i, hbInterval) =>
      s.(net := s.net + Emit(|s.nodes|, i, i, Broadcast(AliveBody(s.nodes[i], hbInterval))))
    case SetAlive(i, lid, alive) =>
      s.(nodes := s.nodes[i := s.nodes[i].(alive := s.nodes[i].alive[lid := alive])])
    case ClientAppend(i, data) => OnClientAppend(cfg, s, i, data)
    case Poll(i, lid) => OnPoll(cfg, s, i, lid)
    case DoWork(i, w) => OnWork(cfg, s, i, w)
  }

  // ---------- runs ----------

  ghost predicate EmptyLog(l: RingLog) {
    && l.lastApplied == -1 && l.commitIdx == -1 && l.stableIdx == -1 && l.lastIdx == -1 && l.rx == []
    && forall k :: 0 <= k < |l.slots| ==> !l.slots[k].valid
  }

  // consensus_init and consensus_start; fields the source leaves unset are arbitrary.
  ghost predicate InitNode(cfg: Config, i: nat, n: Node)
    requires i < |cfg.ids|
  {
    && NodeShaped(cfg, i, n)
    && n.id == cfg.ids[i]
    && (forall lid :: 0 <= lid < n.NumTargets() ==> n.peers[lid] == cfg.ids[Peer(i, lid)])
    && n.role == Follower && n.term == 0 && n.voted == -1 && n.curLeaderLid == -1 && n.votes == 0
    && EmptyLog(n.log)
    && n.nextRetransReqIdx == NO_RETRANSMISSION
    && (forall lid :: 0 <= lid < n.NumTargets() ==> n.retrans[lid] == [] && n.retransEntries[lid] == 0)
    && (cfg.allAlive ==> forall lid :: 0 <= lid < n.NumTargets() ==> n.alive[lid])
  }

  ghost predicate Init(cfg: Config, s: State) {
    && Shaped(cfg, s)
    && s.net == {} && s.work == {} && s.clientLog == []
    && forall i :: 0 <= i < |s.nodes| ==> InitNode(cfg, i, s.nodes[i]) && s.voters[i] == []
  }

  ghost predicate Next(cfg: Config, s: State, s': State) {
    Shaped(cfg, s) && exists step :: Enabled(cfg, s, step) && s' == Apply(cfg, s, step)
  }

  ghost predicate IsRun(cfg: Config, run: seq<State>) {
    |run| > 0 && Init(cfg, run[0]) && forall t :: 0 <= t < |run| - 1 ==> Next(cfg, run[t], run[t + 1])
  }

  // The step that led to the t-th state.
  lemma StepAt(cfg: Config, run: seq<State>, t: nat) returns (step: Step)
    requires IsRun(cfg, run) && 0 < t < |run|
    ensures Shaped(cfg, run[t - 1]) && Enabled(cfg, run[t - 1], step)
    ensures run[t] == Apply(cfg, run[t - 1], step)
  {
    hide Enabled, Apply, Shaped;
    assert Next(cfg, run[t - 1], run[t - 1 + 1]);
    step :| Enabled(cfg, run[t - 1], step) && run[t] == Apply(cfg, run[t - 1], step);
  }
}
