/** A run of three nodes in which a repeated VOTE packet makes two leaders, one of them steps
    down and then nominates itself with no stable log, and a follower with a longer log is
    ready to vote for it. */
module FormerLeader {
  import opened Types
  import opened RingLogs
  import opened Nodes
  import opened Consensus
  import opened Replication
  import opened CandidateRole
  import opened FollowerRole
  import opened LeaderRole
  import opened Cluster
  import opened Election
  import opened Scenarios
  import opened Restriction

  const CFG := Config([0, 1, 2], 1, 1, false, false)
  const UNUSED := Slot(false, 0, Chunk([]))
  const COMMAND := Chunk([1])

  function Ring(slot: Slot, applied: int, stableIdx: int, lastIdx: int): RingLog {
    RingLog([slot], applied, applied, stableIdx, lastIdx, [])
  }

  const EMPTY_RING := Ring(UNUSED, -1, -1, -1)
  const WRITTEN := Ring(Slot(true, 1, COMMAND), -1, -1, 0)
  const RECEIVED := Ring(Slot(true, 1, COMMAND), -1, 0, 0)

  function Start(id: nat, peers: seq<nat>, alive: seq<bool>): Node {
    Node(id, Follower, 0, -1, 1, -1, 0, 0, peers, alive, EMPTY_RING, NO_RETRANSMISSION,
         [0, 0], [-1, -1], [[], []], [0, 0])
  }

  // Node 1 as it is once it has lost sight of node 0.
  function Zero(): Node { Start(0, [1, 2], [true, true]) }
  function One(): Node { Start(1, [0, 2], [false, true]) }
  function Two(): Node { Start(2, [0, 1], [true, true]) }

  function StartState(): State {
    State([Zero(), Start(1, [0, 2], [true, true]), Two()], {}, {}, [[], [], []], [])
  }

  // The nodes along the run.
  function Candidate1(): Node { One().(role := Candidate, term := 1) }
  function Leader1(): Node { One().(role := Leader, term := 1) }
  function Writer1(): Node { Leader1().(log := WRITTEN, alive := [true, true]) }
  function Sender1(): Node { Writer1().(nextIndex := [1, 1]) }
  function Committer1(): Node { Sender1().(matchIndex := [0, 0], log := Ring(Slot(true, 1, COMMAND), 0, -1, 0)) }
  function Former1(): Node { Committer1().(role := Follower, term := 2, leaderId := 0, curLeaderLid := 0) }
  function Again1(): Node { Former1().(alive := [false, true], role := Candidate, term := 3) }
  function Follower0(): Node { Zero().(term := 1, curLeaderLid := 0, log := RECEIVED) }
  function Candidate0(): Node { Follower0().(alive := [false, true], role := Candidate, term := 2) }
  function Leader0(): Node { Candidate0().(role := Leader, curLeaderLid := -1, nextIndex := [1, 1]) }
  function Voted2(term: int): Node { Two().(voted := term) }
  function Follower2(): Node { Voted2(2).(term := 1, curLeaderLid := 1, log := RECEIVED) }

  const ENTRY := Append(1, 1, -1, 1, -1, [COMMAND], 28)
  const ACK := AppendReply(1, 1, 0, 0)
  const LAST_NOMINATION := Nomi(3, 1, -1, 1)

  lemma StartIsInit()
    ensures Shaped(CFG, StartState()) && Init(CFG, StartState()) && NodeShaped(CFG, 1, Candidate1())
  {
    forall i: nat | i < 3
      ensures NodeShaped(CFG, i, StartState().nodes[i]) && InitNode(CFG, i, StartState().nodes[i])
    {
    }
    hide InitNode, NodeShaped;
  }

  // ---------- what each node does ----------

  lemma AllStand()
    ensures UpdateLeader(One()) == (Candidate1(), Broadcast(Nomi(1, 1, -1, 1)))
    ensures UpdateLeader(Follower0().(alive := [false, true])) == (Candidate0(), Broadcast(Nomi(2, 0, 0, 2)))
    ensures UpdateLeader(Former1().(alive := [false, true])) == (Again1(), Broadcast(LAST_NOMINATION))
  {
    LowestOfThree(One());
    LowestOfThree(Follower0().(alive := [false, true]));
    LowestOfThree(Former1().(alive := [false, true]));
    hide GetLowestAliveId;
  }

  lemma TwoVotes(term: int, rid: nat, lastIdx: int, voted: int)
    requires voted == -1 || voted == 1
    requires 0 < term && term != voted && rid < 2
    ensures Process(Voted2(voted), rid, rid, Nomi(term, rid, lastIdx, term), NO_RETRANSMISSION, 0)
         == (Voted2(term), Reply(Vote(term, rid)))
  {
  }

  lemma BothWin(lid: nat, rid: nat, b: Body)
    requires lid < 2 && b.Vote?
    ensures Process(Candidate1(), lid, rid, b, NO_RETRANSMISSION, 0) == (Candidate1().(votes := 1), Silent)
    ensures Process(Candidate0(), lid, rid, b, NO_RETRANSMISSION, 0) == (Candidate0().(votes := 1), Silent)
    ensures Process(Candidate1().(votes := 1), lid, rid, b, NO_RETRANSMISSION, 0) == (Leader1(), Silent)
    ensures Process(Candidate0().(votes := 1), lid, rid, b, NO_RETRANSMISSION, 0) == (Leader0(), Silent)
  {
    assert Repeat(1, 2) == [1, 1] && Repeat(0, 2) == [0, 0] && Repeat(-1, 2) == [-1, -1];
    assert Repeat<seq<int>>([], 2) == [[], []];
  }

  lemma OneWrites()
    ensures AppendCommand(EMPTY_RING, COMMAND, 1, 0) == Some(WRITTEN)
  {
    assert [UNUSED][0 := Slot(true, 1, COMMAND)] == WRITTEN.slots;
  }

  lemma OneSends(lid: nat, n: Node)
    requires lid < 2 && n == (if lid == 0 then Writer1() else Writer1().(nextIndex := [1, 0]))
    ensures CheckPending(n, lid) == (n, Some(Work(lid, 0, false)))
    ensures PrepareLogReplication(n, Work(lid, 0, false), 1)
         == Sent(if lid == 0 then n.(nextIndex := [1, 0]) else Sender1(), Some(ENTRY), false)
  {
    assert Chunks(WRITTEN.slots, 0, 1) == [COMMAND];
    assert [0, 0][0 := 1] == [1, 0] && [1, 0][1 := 1] == [1, 1];
  }

  lemma Takes(n: Node, lid: nat)
    requires (n == Zero() && lid == 0) || (n == Voted2(2) && lid == 1)
    ensures Process(n, lid, 1, ENTRY, NO_RETRANSMISSION, 0)
         == (n.(term := 1, curLeaderLid := lid, log := RECEIVED), Reply(ACK))
  {
    var n1 := AcceptLeader(n, lid, 1, 1);
    assert n1 == n.(term := 1, curLeaderLid := lid);
    assert AppendAll(n1.log, [COMMAND], 1, 0) == Some(WRITTEN) by {
      OneWrites();
      assert [COMMAND][1..] == [];
    }
    assert StableScan(WRITTEN.slots, -1, 0) == StableScan(WRITTEN.slots, 0, 0) == 0;
  }

  lemma FirstAck()
    ensures Process(Sender1(), 0, 0, ACK, NO_RETRANSMISSION, 0) == (Sender1().(matchIndex := [0, -1]), Silent)
  {
    var n := Sender1().(matchIndex := [0, -1]);
    assert [-1, -1][0 := 0] == [0, -1];
    assert forall best :: BestMatch(n, 1, best) == None;
    assert BestMatch(n, 0, -1) == None;
  }

  lemma SecondAck()
    ensures Process(Sender1().(matchIndex := [0, -1]), 1, 2, ACK, NO_RETRANSMISSION, 0) == (Committer1(), Silent)
  {
    var n := Sender1().(matchIndex := [0, 0]);
    assert [0, -1][1 := 0] == [0, 0];
    assert Hits(n, 0, 0) == 0 && Hits(n, 0, 1) == 1 && Hits(n, 0, 2) == 2;
    assert HasCurrentTerm(n, 0) && IsPotentialCommitIdx(n, 0);
    assert BestMatch(n, 2, 0) == Some(0);
    assert BestMatch(n, 1, 0) == Some(0);
    assert BestMatch(n, 0, -1) == Some(0);
  }

  lemma OneStepsDown()
    ensures Process(Committer1(), 0, 0, AliveBody(Leader0(), 0), NO_RETRANSMISSION, 0) == (Former1(), Silent)
  {
    var s := StopLeader(Committer1().(term := 2, leaderId := 0, curLeaderLid := 0));
    assert s.retrans == [[], []] && s.retransEntries == [0, 0];
  }

  lemma TwoWouldVote()
    ensures Granted(Follower2(), LAST_NOMINATION, 1)
  {
  }

  // ---------- the run ----------

  ghost predicate At(s: State, zero: Node, one: Node, two: Node) {
    Shaped(CFG, s) && s.nodes == [zero, one, two]
  }

  // Node 1 takes node 0 for dead and wins with node 2's vote delivered twice.
  lemma OneCampaigns() returns (s: State, run: seq<State>)
    ensures Stretch(CFG, run, StartState(), s)
    ensures At(s, Zero(), Candidate1(), Two()) && Packet(1, 2, Nomi(1, 1, -1, 1)) in s.net
  {
    hide Next, UpdateLeader, Shaped, Init, InitNode, NodeShaped;
    StartIsInit();
    AllStand();
    var s0 := StartState();
    var s1 := Noticed(CFG, s0, 1, 0, false);
    assert s1.nodes[1] == One();
    s := Stand(CFG, s1, 1, Candidate1(), Nomi(1, 1, -1, 1));
    run := [s0, s1, s];
  }

  lemma TwoIsAsked(s0: State) returns (s: State, run: seq<State>)
    requires At(s0, Zero(), Candidate1(), Two()) && Packet(1, 2, Nomi(1, 1, -1, 1)) in s0.net
    ensures Stretch(CFG, run, s0, s) && At(s, Zero(), Candidate1(), Voted2(1)) && Packet(2, 1, Vote(1, 1)) in s.net
  {
    TwoVotes(1, 1, -1, -1);
    hide Next, Process, Shaped;
    s := Receive(CFG, s0, Packet(1, 2, Nomi(1, 1, -1, 1)), Voted2(1), Reply(Vote(1, 1)));
    run := [s0, s];
  }

  lemma OneLeads(s0: State) returns (s: State, run: seq<State>)
    requires At(s0, Zero(), Candidate1(), Voted2(1)) && Packet(2, 1, Vote(1, 1)) in s0.net
    ensures Stretch(CFG, run, s0, s) && At(s, Zero(), Leader1(), Voted2(1))
  {
    BothWin(1, 2, Vote(1, 1));
    hide Next, Process, Shaped;
    var s1 := Receive(CFG, s0, Packet(2, 1, Vote(1, 1)), Candidate1().(votes := 1), Silent);
    s := Receive(CFG, s1, Packet(2, 1, Vote(1, 1)), Leader1(), Silent);
    run := [s0, s1, s];
  }

  // It writes one command and sees node 0.
  lemma OneStarts(s0: State) returns (s: State, run: seq<State>)
    requires At(s0, Zero(), Leader1(), Voted2(1))
    ensures Stretch(CFG, run, s0, s) && At(s, Zero(), Writer1(), Voted2(1))
  {
    OneWrites();
    hide Next, AppendCommand, Shaped;
    var s1 := ClientWrites(CFG, s0, 1, COMMAND, WRITTEN);
    s := Noticed(CFG, s1, 1, 0, true);
    assert s.nodes[1] == Writer1();
    run := [s0, s1, s];
  }

  // It sends the command to node 0, then to node 2.
  lemma OneReplicates(s0: State) returns (s: State, run: seq<State>)
    requires At(s0, Zero(), Writer1(), Voted2(1))
    ensures Stretch(CFG, run, s0, s) && At(s, Zero(), Writer1().(nextIndex := [1, 0]), Voted2(1))
    ensures Packet(1, 0, ENTRY) in s.net
  {
    OneSends(0, Writer1());
    hide Next, CheckPending, PrepareLogReplication, Shaped;
    var s1 := Polled(CFG, s0, 1, 0, Work(0, 0, false));
    s := Worked(CFG, s1, 1, Work(0, 0, false), Writer1().(nextIndex := [1, 0]), ENTRY, false);
    run := [s0, s1, s];
  }

  lemma OneReplicatesOn(s0: State) returns (s: State, run: seq<State>)
    requires At(s0, Zero(), Writer1().(nextIndex := [1, 0]), Voted2(1)) && Packet(1, 0, ENTRY) in s0.net
    ensures Stretch(CFG, run, s0, s) && At(s, Zero(), Sender1(), Voted2(1))
    ensures Packet(1, 0, ENTRY) in s.net && Packet(1, 2, ENTRY) in s.net
  {
    OneSends(1, Writer1().(nextIndex := [1, 0]));
    hide Next, CheckPending, PrepareLogReplication, Shaped;
    var s1 := Polled(CFG, s0, 1, 1, Work(1, 0, false));
    s := Worked(CFG, s1, 1, Work(1, 0, false), Sender1(), ENTRY, false);
    run := [s0, s1, s];
  }

  // Node 0 takes the command and loses sight of node 1.
  lemma ZeroFollows(s0: State) returns (s: State, run: seq<State>)
    requires At(s0, Zero(), Sender1(), Voted2(1))
    requires Packet(1, 0, ENTRY) in s0.net && Packet(1, 2, ENTRY) in s0.net
    ensures Stretch(CFG, run, s0, s) && At(s, Follower0().(alive := [false, true]), Sender1(), Voted2(1))
    ensures Packet(1, 2, ENTRY) in s.net && Packet(0, 1, ACK) in s.net
  {
    Takes(Zero(), 0);
    hide Next, Process, Shaped;
    var s1 := Receive(CFG, s0, Packet(1, 0, ENTRY), Follower0(), Reply(ACK));
    s := Noticed(CFG, s1, 0, 0, false);
    assert s.nodes[0] == Follower0().(alive := [false, true]);
    run := [s0, s1, s];
  }

  // It stands, and node 2 votes while its log is empty.
  lemma ZeroCampaigns(s0: State) returns (s: State, run: seq<State>)
    requires At(s0, Follower0().(alive := [false, true]), Sender1(), Voted2(1))
    requires Packet(1, 2, ENTRY) in s0.net && Packet(0, 1, ACK) in s0.net
    ensures Stretch(CFG, run, s0, s) && At(s, Candidate0(), Sender1(), Voted2(2))
    ensures Packet(1, 2, ENTRY) in s.net && Packet(0, 1, ACK) in s.net && Packet(2, 0, Vote(2, 0)) in s.net
  {
    AllStand();
    TwoVotes(2, 0, 0, 1);
    hide Next, Process, UpdateLeader, Shaped;
    var s1 := Stand(CFG, s0, 0, Candidate0(), Nomi(2, 0, 0, 2));
    s := Receive(CFG, s1, Packet(0, 2, Nomi(2, 0, 0, 2)), Voted2(2), Reply(Vote(2, 0)));
    run := [s0, s1, s];
  }

  // Node 2 takes the command as well and node 1 commits it.
  lemma TwoFollows(s0: State) returns (s: State, run: seq<State>)
    requires At(s0, Candidate0(), Sender1(), Voted2(2))
    requires Packet(1, 2, ENTRY) in s0.net && Packet(0, 1, ACK) in s0.net && Packet(2, 0, Vote(2, 0)) in s0.net
    ensures Stretch(CFG, run, s0, s) && At(s, Candidate0(), Sender1(), Follower2())
    ensures Packet(0, 1, ACK) in s.net && Packet(2, 1, ACK) in s.net && Packet(2, 0, Vote(2, 0)) in s.net
  {
    Takes(Voted2(2), 1);
    hide Next, Process, Shaped;
    s := Receive(CFG, s0, Packet(1, 2, ENTRY), Follower2(), Reply(ACK));
    run := [s0, s];
  }

  lemma OneCommits(s0: State) returns (s: State, run: seq<State>)
    requires At(s0, Candidate0(), Sender1(), Follower2())
    requires Packet(0, 1, ACK) in s0.net && Packet(2, 1, ACK) in s0.net && Packet(2, 0, Vote(2, 0)) in s0.net
    ensures Stretch(CFG, run, s0, s)
    ensures At(s, Candidate0(), Committer1(), Follower2()) && Packet(2, 0, Vote(2, 0)) in s.net
  {
    FirstAck();
    SecondAck();
    hide Next, Process, Shaped;
    var s1 := Receive(CFG, s0, Packet(0, 1, ACK), Sender1().(matchIndex := [0, -1]), Silent);
    s := Receive(CFG, s1, Packet(2, 1, ACK), Committer1(), Silent);
    run := [s0, s1, s];
  }

  // Node 0 wins with node 2's vote delivered twice, and its ALIVE takes node 1 down.
  lemma ZeroLeads(s0: State) returns (s: State, run: seq<State>)
    requires At(s0, Candidate0(), Committer1(), Follower2()) && Packet(2, 0, Vote(2, 0)) in s0.net
    ensures Stretch(CFG, run, s0, s) && At(s, Leader0(), Committer1(), Follower2())
  {
    BothWin(1, 2, Vote(2, 0));
    hide Next, Process, Shaped;
    var s1 := Receive(CFG, s0, Packet(2, 0, Vote(2, 0)), Candidate0().(votes := 1), Silent);
    s := Receive(CFG, s1, Packet(2, 0, Vote(2, 0)), Leader0(), Silent);
    run := [s0, s1, s];
  }

  lemma OneIsReplaced(s0: State) returns (s: State, run: seq<State>)
    requires At(s0, Leader0(), Committer1(), Follower2())
    ensures Stretch(CFG, run, s0, s) && At(s, Leader0(), Former1(), Follower2())
  {
    OneStepsDown();
    hide Next, Process, Shaped;
    var s1 := Announced(CFG, s0, 0);
    s := Receive(CFG, s1, Packet(0, 1, AliveBody(Leader0(), 0)), Former1(), Silent);
    run := [s0, s1, s];
  }

  // Node 1 stops seeing node 0 and stands again.
  lemma FormerNominates(s0: State) returns (s: State, run: seq<State>)
    requires At(s0, Leader0(), Former1(), Follower2())
    ensures Stretch(CFG, run, s0, s)
    ensures |s.nodes| == 3 && s.nodes[2] == Follower2() && Packet(1, 2, LAST_NOMINATION) in s.net
  {
    AllStand();
    hide Next, UpdateLeader, Shaped;
    var s1 := Noticed(CFG, s0, 1, 0, false);
    assert s1.nodes[1] == Former1().(alive := [false, true]);
    s := Stand(CFG, s1, 1, Again1(), LAST_NOMINATION);
    run := [s0, s1, s];
  }

  // The network may repeat a vote, and then two nodes lead at once: the counter does not
  // remember who voted.
  lemma RepeatedVoteMakesTwoLeaders() returns (s: State, run: seq<State>)
    ensures IsRun(CFG, run) && !CFG.votesOnce && Stretch(CFG, run, StartState(), s)
    ensures Leads(s, 0) && Leads(s, 1) && At(s, Leader0(), Committer1(), Follower2())
  {
    hide Next, Init, Shaped, StartState;
    StartIsInit();
    var s1, r1 := OneCampaigns();
    var s2, r2 := TwoIsAsked(s1);
    var s3, r3 := OneLeads(s2);
    var s4, r4 := OneStarts(s3);
    var s5, r5 := OneReplicates(s4);
    var s6, r6 := OneReplicatesOn(s5);
    var s7, r7 := ZeroFollows(s6);
    var s8, r8 := ZeroCampaigns(s7);
    var s9, r9 := TwoFollows(s8);
    var s10, r10 := OneCommits(s9);
    var s11, r11 := ZeroLeads(s10);
    s := s11;
    assert Leads(s, 0) && Leads(s, 1);
    hide At, Linked, Leads;
    run := JoinAll(CFG, [r1, r2, r3, r4, r5, r6, r7, r8, r9, r10, r11]);
  }

  // Once leaders change, the restriction does fail: a nomination in flight claims no stable
  // log at all, and its receiver holds an entry and would vote for it.
  lemma RestrictionFailsAfterLeaderChange() returns (run: seq<State>, p: Packet)
    ensures IsRun(CFG, run)
    ensures var s := run[|run| - 1];
      && p in s.net && p.body.Nomi? && p.src < 3 && p.dst < |s.nodes| && s.nodes[p.dst].Shaped()
      && Granted(s.nodes[p.dst], p.body, CFG.ids[p.src])
      && p.body.lastIdx < s.nodes[p.dst].log.lastIdx
  {
    TwoWouldVote();
    var s1, r1 := RepeatedVoteMakesTwoLeaders();
    var s2, r2 := OneIsReplaced(s1);
    var s3, r3 := FormerNominates(s2);
    hide Next, Init, Shaped, At, Linked, StartState, Granted;
    run := JoinAll(CFG, [r1, r2, r3]);
    p := Packet(1, 2, LAST_NOMINATION);
  }
}
