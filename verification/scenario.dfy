/** Building blocks for concrete runs: one lemma for each kind of step of the cluster. */
module Scenarios {
  import opened Types
  import opened RingLogs
  import opened Nodes
  import opened Replication
  import opened CandidateRole
  import opened Cluster

  // One step, and the node it changes.
  ghost predicate Changes(cfg: Config, s: State, s': State, i: nat, n': Node) {
    && Next(cfg, s, s') && Shaped(cfg, s')
    && i < |s.nodes| && s'.nodes == s.nodes[i := n'] && s.net <= s'.net && s.work <= s'.work
  }

  lemma Stand(cfg: Config, s: State, i: nat, c: Node, b: Body) returns (s': State)
    requires Shaped(cfg, s) && i < |s.nodes| && s.nodes[i].role != Leader
    requires UpdateLeader(s.nodes[i]) == (c, Broadcast(b)) && c.votes == 0
    requires NodeShaped(cfg, i, c)
    ensures Changes(cfg, s, s', i, c) && s'.voters == s.voters[i := []]
    ensures forall j: nat :: j < |s.nodes| && j != i ==> Packet(i, j, b) in s'.net
  {
    hide UpdateLeader;
    s' := Apply(cfg, s, Heartbeat(i));
  }

  lemma Receive(cfg: Config, s: State, p: Packet, n': Node, out: Output) returns (s': State)
    requires Shaped(cfg, s) && p in s.net && p.src < |s.nodes| && p.dst < |s.nodes| && p.src != p.dst
    requires Process(s.nodes[p.dst], LidOf(p.dst, p.src), cfg.ids[p.src], p.body, NO_RETRANSMISSION, 0) == (n', out)
    requires NodeShaped(cfg, p.dst, n')
    requires cfg.votesOnce && p.body.Vote? && s.nodes[p.dst].role == Candidate ==> p.src !in s.voters[p.dst]
    ensures Changes(cfg, s, s', p.dst, n')
    ensures s'.voters == s.voters[p.dst := CountVoters(s.nodes[p.dst], n', s.voters[p.dst], p.src)]
    ensures out.Reply? ==> Packet(p.dst, p.src, out.body) in s'.net
  {
    hide Process;
    s' := Apply(cfg, s, Deliver(p, NO_RETRANSMISSION, 0));
  }

  // A client's command at the leader, followed by the poll and the work that send it.
  lemma ClientWrites(cfg: Config, s: State, i: nat, data: Chunk, l': RingLog) returns (s': State)
    requires Shaped(cfg, s) && i < |s.nodes| && s.nodes[i].role == Leader
    requires RoomFor(cfg, s, i, s.nodes[i].log.lastIdx + 1)
    requires AppendCommand(s.nodes[i].log, data, s.nodes[i].term, s.nodes[i].log.lastIdx + 1) == Some(l')
    ensures Changes(cfg, s, s', i, s.nodes[i].(log := l')) && s'.voters == s.voters
  {
    s' := Apply(cfg, s, ClientAppend(i, data));
  }

  lemma Polled(cfg: Config, s: State, i: nat, lid: nat, w: Work) returns (s': State)
    requires Shaped(cfg, s) && i < |s.nodes| && lid < s.nodes[i].NumTargets()
    requires CheckPending(s.nodes[i], lid) == (s.nodes[i], Some(w))
    ensures Changes(cfg, s, s', i, s.nodes[i]) && s'.voters == s.voters
    ensures (i, w) in s'.work
  {
    hide CheckPending;
    s' := Apply(cfg, s, Poll(i, lid));
  }

  lemma Worked(cfg: Config, s: State, i: nat, w: Work, n': Node, b: Body, more: bool) returns (s': State)
    requires Shaped(cfg, s) && i < |s.nodes| && w.lid < s.nodes[i].NumTargets() && (i, w) in s.work
    requires PrepareLogReplication(s.nodes[i], w, cfg.maxPerPkt) == Sent(n', Some(b), more)
    requires NodeShaped(cfg, i, n')
    ensures Changes(cfg, s, s', i, n') && s'.voters == s.voters
    ensures Packet(i, Peer(i, w.lid), b) in s'.net
  {
    hide PrepareLogReplication;
    s' := Apply(cfg, s, DoWork(i, w));
  }

  lemma Noticed(cfg: Config, s: State, i: nat, lid: nat, alive: bool) returns (s': State)
    requires Shaped(cfg, s) && i < |s.nodes| && lid < s.nodes[i].NumTargets() && !cfg.allAlive
    ensures Changes(cfg, s, s', i, s.nodes[i].(alive := s.nodes[i].alive[lid := alive])) && s'.voters == s.voters
  {
    s' := Apply(cfg, s, SetAlive(i, lid, alive));
  }

  lemma Announced(cfg: Config, s: State, i: nat) returns (s': State)
    requires Shaped(cfg, s) && i < |s.nodes| && s.nodes[i].role == Leader
    ensures Changes(cfg, s, s', i, s.nodes[i]) && s'.voters == s.voters
    ensures forall j: nat :: j < |s.nodes| && j != i ==> Packet(i, j, AliveBody(s.nodes[i], 0)) in s'.net
  {
    s' := Apply(cfg, s, SendAlive(i, 0));
  }

  lemma LowestOfThree(n: Node)
    requires n.Shaped() && n.NumTargets() == 2
    ensures var low := if n.alive[0] && n.id > n.peers[0] then n.peers[0] else n.id;
      GetLowestAliveId(n, 2) == if n.alive[1] && low > n.peers[1] then n.peers[1] else low
  {
    assert GetLowestAliveId(n, 1) == if n.alive[0] && n.id > n.peers[0] then n.peers[0] else n.id;
  }

  // ---------- stretches of a run ----------

  ghost predicate Linked(cfg: Config, run: seq<State>) {
    forall t :: 0 <= t < |run| - 1 ==> Next(cfg, run[t], run[t + 1])
  }

  ghost predicate Stretch(cfg: Config, run: seq<State>, s0: State, s: State) {
    Linked(cfg, run) && run != [] && run[0] == s0 && run[|run| - 1] == s
  }

  // Two stretches that share a state make one.
  lemma Join(cfg: Config, a: seq<State>, b: seq<State>) returns (run: seq<State>)
    requires Linked(cfg, a) && Linked(cfg, b) && a != [] && b != [] && a[|a| - 1] == b[0]
    ensures Linked(cfg, run) && run != [] && run[0] == a[0] && run[|run| - 1] == b[|b| - 1]
  {
    hide Next;
    run := a + b[1..];
    forall t | 0 <= t < |run| - 1
      ensures Next(cfg, run[t], run[t + 1])
    {
      if t >= |a| - 1 {
        assert run[t] == b[t - (|a| - 1)] && run[t + 1] == b[t - (|a| - 1) + 1];
      }
    }
    assert |b| == 1 ==> run[|run| - 1] == a[|a| - 1];
  }

  ghost predicate Fitting(cfg: Config, parts: seq<seq<State>>) {
    && (forall i :: 0 <= i < |parts| ==> Linked(cfg, parts[i]) && parts[i] != [])
    && forall i :: 0 <= i < |parts| - 1 ==> parts[i][|parts[i]| - 1] == parts[i + 1][0]
  }

  lemma {:induction false} JoinAll(cfg: Config, parts: seq<seq<State>>) returns (run: seq<State>)
    requires parts != [] && Fitting(cfg, parts)
    ensures Linked(cfg, run) && run != [] && run[0] == parts[0][0]
    ensures run[|run| - 1] == parts[|parts| - 1][|parts[|parts| - 1]| - 1]
    decreases |parts|
  {
    if |parts| == 1 {
      run := parts[0];
    } else {
      var rest := parts[1..];
      assert forall i :: 0 <= i < |rest| ==> rest[i] == parts[i + 1];
      hide Linked;
      run := JoinAll(cfg, rest);
      run := Join(cfg, parts[0], run);
    }
  }
}
