/** A run of three nodes, with one leader and each vote counted once, in which a candidate of
    an earlier term takes the leader's entry. Later, as a follower, it refuses the entry that
    comes next, and the leader, which believes it dead, commits past it. */
module Overrun {
  import opened Types
  import opened RingLogs
  import opened Nodes
  import opened Consensus
  import opened Replication
  import opened CandidateRole
  import opened FollowerRole
  import opened LeaderRole
  import opened Cluster
  import opened Election
  import opened Scenarios
  import opened Acceptance

  const CFG := Config([0, 1, 2], 2, 2, true, false)
  const UNUSED := Slot(false, 0, Chunk([]))
  const FIRST := Chunk([1])
  const SECOND := Chunk([2])

  function Ring(slots: seq<Slot>, stableIdx: int, lastIdx: int): RingLog {
    RingLog(slots, -1, -1, stableIdx, lastIdx, [])
  }

  function Start(id: nat, peers: seq<nat>): Node {
    Node(id, Follower, 0, -1, 0, -1, 0, 0, peers, [true, true], Ring([UNUSED, UNUSED], -1, -1), NO_RETRANSMISSION,
         [0, 0], [-1, -1], [[], []], [0, 0])
  }

  function Zero(): Node { Start(0, [1, 2]) }
  function One(): Node { Start(1, [0, 2]) }
  function Two(): Node { Start(2, [0, 1]) }

  function StartState(): State {
    State([Zero(), One(), Two()], {}, {}, [[], [], []], [])
  }

  // The nodes along the run. Node 1 loses sight of node 0 and stands for term 1; node 0 stands
  // for term 2 and wins; node 2 loses sight of both and stands for term 1.
  function Watching1(): Node { One().(alive := [false, true]) }
  function Candidate1(): Node { Watching1().(role := Candidate, term := 1) }
  function Voter1(): Node { Watching1().(term := 1, voted := 2) }
  function Follower1(): Node { Voter1().(term := 2, curLeaderLid := 0, log := TWO_ENTRIES.(stableIdx := 1)) }
  function Candidate0(): Node { Zero().(role := Candidate, term := 2) }
  function Leader0(): Node { Zero().(role := Leader, term := 2) }
  function Writer0(): Node { Leader0().(log := TWO_ENTRIES, nextIndex := [0, 1]) }
  function Sender0(): Node { Leader0().(log := TWO_ENTRIES, nextIndex := [2, 1]) }
  function Resender0(): Node { Leader0().(log := TWO_ENTRIES, nextIndex := [2, 2], matchIndex := [-1, 0]) }
  function Voter2(): Node { Two().(voted := 2) }
  function Watching2(): Node { Voter2().(alive := [false, false]) }
  function Candidate2(): Node { Watching2().(role := Candidate, term := 1) }
  function Misfiler2(): Node { Candidate2().(log := MISFILED) }
  function Follower2(): Node { Watching2().(term := 2, curLeaderLid := 0, log := MISFILED) }

  const ONE_ENTRY := Ring([Slot(true, 2, FIRST), UNUSED], -1, 0)
  const TWO_ENTRIES := Ring([Slot(true, 2, FIRST), Slot(true, 2, SECOND)], -1, 1)
  const MISFILED := Ring([Slot(true, 1, FIRST), UNUSED], 0, 0)

  const FIRST_CAMPAIGN := Nomi(1, 1, -1, 1)
  const CAMPAIGN := Nomi(2, 0, -1, 2)
  const BALLOT := Vote(2, 0)
  const SHORT := Append(2, 0, -1, 2, -1, [FIRST], 28)
  const LONG := Append(2, 0, -1, 2, -1, [FIRST, SECOND], 36)
  const NEXT := Append(2, 0, 0, 2, -1, [SECOND], 28)
  const SHORT_ACK := AppendReply(1, 1, 0, 0)
  const LONG_ACK := AppendReply(2, 1, 1, 1)

  lemma StartIsInit()
    ensures Shaped(CFG, StartState()) && Init(CFG, StartState()) && NodeShaped(CFG, 1, Candidate1())
  {
    forall i: nat | i < 3
      ensures NodeShaped(CFG, i, StartState().nodes[i]) && InitNode(CFG, i, StartState().nodes[i])
    {
    }
    hide InitNode, NodeShaped;
  }

  // ---------- what each node does ----------

  lemma AllStand()
    ensures UpdateLeader(Watching1()) == (Candidate1(), Broadcast(FIRST_CAMPAIGN))
    ensures UpdateLeader(Zero().(term := 1)) == (Candidate0(), Broadcast(CAMPAIGN))
    ensures UpdateLeader(Watching2()) == (Candidate2(), Broadcast(Nomi(1, 2, -1, 1)))
  {
    LowestOfThree(Watching1());
    LowestOfThree(Zero().(term := 1));
    LowestOfThree(Watching2());
    hide GetLowestAliveId;
  }

  lemma AllVote()
    ensures Process(Zero(), 0, 1, FIRST_CAMPAIGN, NO_RETRANSMISSION, 0) == (Zero().(term := 1), Silent)
    ensures Process(Candidate1(), 0, 0, CAMPAIGN, NO_RETRANSMISSION, 0) == (Voter1(), Reply(BALLOT))
    ensures Process(Two(), 0, 0, CAMPAIGN, NO_RETRANSMISSION, 0) == (Voter2(), Reply(BALLOT))
  {
  }

  lemma ZeroWins()
    ensures Process(Candidate0(), 0, 1, BALLOT, NO_RETRANSMISSION, 0) == (Candidate0().(votes := 1), Silent)
    ensures Process(Candidate0().(votes := 1), 1, 2, BALLOT, NO_RETRANSMISSION, 0) == (Leader0(), Silent)
  {
    assert Repeat(0, 2) == [0, 0] && Repeat(-1, 2) == [-1, -1];
    assert Repeat<seq<int>>([], 2) == [[], []];
  }

  lemma ZeroWrites()
    ensures AppendCommand(Leader0().log, FIRST, 2, 0) == Some(ONE_ENTRY)
    ensures AppendCommand(ONE_ENTRY, SECOND, 2, 1) == Some(TWO_ENTRIES)
  {
    assert [UNUSED, UNUSED][0 := Slot(true, 2, FIRST)] == ONE_ENTRY.slots;
    assert BufferIdx(2, 1) == 1;
    assert ONE_ENTRY.slots[1 := Slot(true, 2, SECOND)] == TWO_ENTRIES.slots;
  }

  lemma ZeroSends()
    ensures var n := Leader0().(log := ONE_ENTRY);
      && CheckPending(n, 1) == (n, Some(Work(1, 0, false)))
      && PrepareLogReplication(n, Work(1, 0, false), 2) == Sent(n.(nextIndex := [0, 1]), Some(SHORT), false)
    ensures CheckPending(Writer0(), 0) == (Writer0(), Some(Work(0, 0, false)))
    ensures PrepareLogReplication(Writer0(), Work(0, 0, false), 2) == Sent(Sender0(), Some(LONG), false)
  {
    assert Chunks(ONE_ENTRY.slots, 0, 1) == [FIRST];
    assert Chunks(TWO_ENTRIES.slots, 0, 2) == [FIRST, SECOND];
  }

  lemma ZeroSendsNext()
    ensures var n := Sender0().(matchIndex := [-1, 0]);
      && CheckPending(n, 1) == (n, Some(Work(1, 1, false)))
      && PrepareLogReplication(n, Work(1, 1, false), 2) == Sent(Resender0(), Some(NEXT), false)
  {
    assert BufferIdx(2, 1) == 1 && BufferIdx(2, 0) == 0;
    assert Chunks(TWO_ENTRIES.slots, 1, 1) == [SECOND];
  }

  // A candidate takes the entry under its own, earlier term.
  lemma TwoMisfiles()
    ensures Process(Candidate2(), 0, 0, SHORT, NO_RETRANSMISSION, 0) == (Misfiler2(), Reply(SHORT_ACK))
  {
    var n := Candidate2();
    var written := Ring([Slot(true, 1, FIRST), UNUSED], -1, 0);
    assert AppendAll(n.log, [FIRST], 1, 0) == Some(written) by {
      assert [UNUSED, UNUSED][0 := Slot(true, 1, FIRST)] == written.slots;
      assert [FIRST][1..] == [];
    }
    assert StableScan(written.slots, -1, 0) == StableScan(written.slots, 0, 0) == 0;
  }

  lemma OneTakesLong()
    ensures Process(Voter1(), 0, 0, LONG, NO_RETRANSMISSION, 0) == (Follower1(), Reply(LONG_ACK))
  {
    var n := AcceptLeader(Voter1(), 0, 0, 2);
    assert n == Voter1().(term := 2, curLeaderLid := 0);
    assert AppendAll(n.log, [FIRST, SECOND], 2, 0) == Some(TWO_ENTRIES) by {
      ZeroWrites();
      assert [FIRST, SECOND][1..] == [SECOND];
      assert AppendAll(ONE_ENTRY, [SECOND], 2, 1) == AppendAll(TWO_ENTRIES, [SECOND][1..], 2, 2);
    }
    assert StableScan(TWO_ENTRIES.slots, 1, 1) == 1;
    assert StableScan(TWO_ENTRIES.slots, 0, 1) == 1;
    assert StableScan(TWO_ENTRIES.slots, -1, 1) == 1;
  }

  lemma TwoFollows()
    ensures Process(Misfiler2(), 0, 0, AliveBody(Sender0(), 0), NO_RETRANSMISSION, 0) == (Follower2(), Silent)
  {
  }

  lemma TwoRefuses()
    ensures Process(Follower2(), 0, 0, NEXT, NO_RETRANSMISSION, 0) == (Follower2(), Refused(2, 0))
  {
  }

  // Node 1 has not acknowledged anything yet, so node 2's acknowledgement commits nothing.
  lemma ZeroNotesShort()
    ensures Process(Sender0(), 1, 2, SHORT_ACK, NO_RETRANSMISSION, 0) == (Sender0().(matchIndex := [-1, 0]), Silent)
  {
    var n := Sender0().(matchIndex := [-1, 0]);
    assert [-1, -1][1 := 0] == [-1, 0];
    assert BestMatch(n, 0, -1) == None;
  }

  // With node 2 believed dead, node 1's acknowledgement alone commits both entries.
  lemma ZeroNotesLong()
    ensures var n := Resender0().(alive := [true, false]);
      Process(n, 0, 1, LONG_ACK, NO_RETRANSMISSION, 0)
      == (n.(matchIndex := [1, 0], log := TWO_ENTRIES.(commitIdx := 1, lastApplied := 1)), Silent)
  {
    var n := Resender0().(alive := [true, false], matchIndex := [1, 0]);
    assert [-1, 0][0 := 1] == [1, 0];
    assert BufferIdx(2, 1) == 1 && BufferIdx(2, 0) == 0;
    assert Hits(n, 1, 0) == 0 && Hits(n, 1, 1) == 1 && Hits(n, 1, 2) == 2;
    assert HasCurrentTerm(n, 1) && IsPotentialCommitIdx(n, 1);
    assert BestMatch(n, 2, 1) == Some(1);
    assert BestMatch(n, 1, 1) == Some(1);
    assert BestMatch(n, 0, -1) == Some(1);
  }

  // ---------- the run ----------

  ghost predicate At(s: State, zero: Node, one: Node, two: Node) {
    Shaped(CFG, s) && s.nodes == [zero, one, two]
  }

  // Node 1 stands, and node 0 learns its term and stands for the next.
  lemma OneStands() returns (s: State, run: seq<State>)
    ensures Stretch(CFG, run, StartState(), s)
    ensures At(s, Zero(), Candidate1(), Two()) && Packet(1, 0, FIRST_CAMPAIGN) in s.net
  {
    hide Next, UpdateLeader, Shaped, Init, InitNode, NodeShaped;
    StartIsInit();
    AllStand();
    var s0 := StartState();
    var s1 := Noticed(CFG, s0, 1, 0, false);
    assert s1.nodes[1] == Watching1();
    s := Stand(CFG, s1, 1, Candidate1(), FIRST_CAMPAIGN);
    run := [s0, s1, s];
  }

  lemma ZeroStands(s0: State) returns (s: State, run: seq<State>)
    requires At(s0, Zero(), Candidate1(), Two()) && Packet(1, 0, FIRST_CAMPAIGN) in s0.net
    ensures Stretch(CFG, run, s0, s) && At(s, Candidate0(), Candidate1(), Two()) && s.voters[0] == []
    ensures Packet(0, 1, CAMPAIGN) in s.net && Packet(0, 2, CAMPAIGN) in s.net
  {
    assert |s0.voters| == 3;
    AllStand();
    AllVote();
    hide Next, Process, UpdateLeader, Shaped;
    var s1 := Receive(CFG, s0, Packet(1, 0, FIRST_CAMPAIGN), Zero().(term := 1), Silent);
    s := Stand(CFG, s1, 0, Candidate0(), CAMPAIGN);
    run := [s0, s1, s];
  }

  lemma BothVote(s0: State) returns (s: State, run: seq<State>)
    requires At(s0, Candidate0(), Candidate1(), Two()) && s0.voters[0] == []
    requires Packet(0, 1, CAMPAIGN) in s0.net && Packet(0, 2, CAMPAIGN) in s0.net
    ensures Stretch(CFG, run, s0, s)
    ensures At(s, Candidate0(), Voter1(), Voter2()) && s.voters[0] == []
    ensures Packet(1, 0, BALLOT) in s.net && Packet(2, 0, BALLOT) in s.net
  {
    assert |s0.voters| == 3;
    AllVote();
    hide Next, Process, Shaped;
    var s1 := Receive(CFG, s0, Packet(0, 1, CAMPAIGN), Voter1(), Reply(BALLOT));
    s := Receive(CFG, s1, Packet(0, 2, CAMPAIGN), Voter2(), Reply(BALLOT));
    run := [s0, s1, s];
  }

  lemma Elected(s0: State) returns (s: State, run: seq<State>)
    requires At(s0, Candidate0(), Voter1(), Voter2()) && s0.voters[0] == []
    requires Packet(1, 0, BALLOT) in s0.net && Packet(2, 0, BALLOT) in s0.net
    ensures Stretch(CFG, run, s0, s) && At(s, Leader0(), Voter1(), Voter2())
  {
    assert |s0.voters| == 3;
    ZeroWins();
    hide Next, Process, Shaped;
    var s1 := Receive(CFG, s0, Packet(1, 0, BALLOT), Candidate0().(votes := 1), Silent);
    s := Receive(CFG, s1, Packet(2, 0, BALLOT), Leader0(), Silent);
    run := [s0, s1, s];
  }

  // Node 2 loses sight of both others and stands for a term that is over.
  lemma TwoStands(s0: State) returns (s: State, run: seq<State>)
    requires At(s0, Leader0(), Voter1(), Voter2())
    ensures Stretch(CFG, run, s0, s) && At(s, Leader0(), Voter1(), Candidate2())
  {
    AllStand();
    hide Next, UpdateLeader, Shaped;
    var s1 := Noticed(CFG, s0, 2, 0, false);
    var s2 := Noticed(CFG, s1, 2, 1, false);
    assert s2.nodes[2] == Watching2();
    s := Stand(CFG, s2, 2, Candidate2(), Nomi(1, 2, -1, 1));
    run := [s0, s1, s2, s];
  }

  // The first command goes to node 2.
  lemma SendsFirst(s0: State) returns (s: State, run: seq<State>)
    requires At(s0, Leader0(), Voter1(), Candidate2())
    ensures Stretch(CFG, run, s0, s)
    ensures At(s, Leader0().(log := ONE_ENTRY, nextIndex := [0, 1]), Voter1(), Candidate2())
    ensures Packet(0, 2, SHORT) in s.net
  {
    ZeroWrites();
    ZeroSends();
    hide Next, CheckPending, PrepareLogReplication, AppendCommand, Shaped;
    var n := Leader0().(log := ONE_ENTRY);
    var w := Work(1, 0, false);
    var s1 := ClientWrites(CFG, s0, 0, FIRST, ONE_ENTRY);
    var s2 := Polled(CFG, s1, 0, 1, w);
    s := Worked(CFG, s2, 0, w, n.(nextIndex := [0, 1]), SHORT, false);
    run := [s0, s1, s2, s];
  }

  // Both commands go to node 1.
  lemma SendsBoth(s0: State) returns (s: State, run: seq<State>)
    requires At(s0, Leader0().(log := ONE_ENTRY, nextIndex := [0, 1]), Voter1(), Candidate2())
    requires Packet(0, 2, SHORT) in s0.net
    ensures Stretch(CFG, run, s0, s) && At(s, Sender0(), Voter1(), Candidate2())
    ensures Packet(0, 2, SHORT) in s.net && Packet(0, 1, LONG) in s.net
  {
    ZeroWrites();
    ZeroSends();
    hide Next, CheckPending, PrepareLogReplication, AppendCommand, Shaped;
    var w := Work(0, 0, false);
    var s1 := ClientWrites(CFG, s0, 0, SECOND, TWO_ENTRIES);
    var s2 := Polled(CFG, s1, 0, 0, w);
    s := Worked(CFG, s2, 0, w, Sender0(), LONG, false);
    run := [s0, s1, s2, s];
  }

  // Both answer; then an ALIVE makes node 2 follow, and the leader hears its answer.
  lemma BothAnswer(s0: State) returns (s: State, run: seq<State>)
    requires At(s0, Sender0(), Voter1(), Candidate2())
    requires Packet(0, 2, SHORT) in s0.net && Packet(0, 1, LONG) in s0.net
    ensures Stretch(CFG, run, s0, s) && At(s, Sender0(), Follower1(), Misfiler2())
    ensures Packet(2, 0, SHORT_ACK) in s.net && Packet(1, 0, LONG_ACK) in s.net
  {
    TwoMisfiles();
    OneTakesLong();
    hide Next, Process, Shaped;
    var s1 := Receive(CFG, s0, Packet(0, 2, SHORT), Misfiler2(), Reply(SHORT_ACK));
    s := Receive(CFG, s1, Packet(0, 1, LONG), Follower1(), Reply(LONG_ACK));
    run := [s0, s1, s];
  }

  lemma TwoIsLed(s0: State) returns (s: State, run: seq<State>)
    requires At(s0, Sender0(), Follower1(), Misfiler2())
    requires Packet(2, 0, SHORT_ACK) in s0.net && Packet(1, 0, LONG_ACK) in s0.net
    ensures Stretch(CFG, run, s0, s)
    ensures At(s, Sender0().(matchIndex := [-1, 0]), Follower1(), Follower2()) && Packet(1, 0, LONG_ACK) in s.net
  {
    TwoFollows();
    ZeroNotesShort();
    hide Next, Process, Shaped;
    var s1 := Announced(CFG, s0, 0);
    var s2 := Receive(CFG, s1, Packet(0, 2, AliveBody(Sender0(), 0)), Follower2(), Silent);
    s := Receive(CFG, s2, Packet(2, 0, SHORT_ACK), Sender0().(matchIndex := [-1, 0]), Silent);
    run := [s0, s1, s2, s];
  }

  // The second command goes to node 2 as well.
  lemma SendsNext(s0: State) returns (s: State, run: seq<State>)
    requires At(s0, Sender0().(matchIndex := [-1, 0]), Follower1(), Follower2()) && Packet(1, 0, LONG_ACK) in s0.net
    ensures Stretch(CFG, run, s0, s) && At(s, Resender0(), Follower1(), Follower2())
    ensures Packet(1, 0, LONG_ACK) in s.net && Packet(0, 2, NEXT) in s.net
  {
    ZeroSendsNext();
    hide Next, CheckPending, PrepareLogReplication, Shaped;
    var w := Work(1, 1, false);
    var s1 := Polled(CFG, s0, 0, 1, w);
    s := Worked(CFG, s1, 0, w, Resender0(), NEXT, false);
    run := [s0, s1, s];
  }

  // The leader believes node 2 dead and hears node 1.
  lemma CommitsBoth(s0: State) returns (s: State, run: seq<State>)
    requires At(s0, Resender0(), Follower1(), Follower2())
    requires Packet(1, 0, LONG_ACK) in s0.net && Packet(0, 2, NEXT) in s0.net
    ensures Stretch(CFG, run, s0, s) && Packet(0, 2, NEXT) in s.net
    ensures |s.nodes| == 3 && Leads(s, 0) && s.nodes[0].log.commitIdx == 1 && s.nodes[2] == Follower2()
  {
    ZeroNotesLong();
    hide Next, Process, Shaped;
    var n := Resender0().(alive := [true, false]);
    var s1 := Noticed(CFG, s0, 0, 1, false);
    assert s1.nodes[0] == n;
    var n' := n.(matchIndex := [1, 0], log := TWO_ENTRIES.(commitIdx := 1, lastApplied := 1));
    s := Receive(CFG, s1, Packet(1, 0, LONG_ACK), n', Silent);
    run := [s0, s1, s];
  }

  lemma WholeRun() returns (run: seq<State>)
    ensures IsRun(CFG, run) && CFG.votesOnce && !CFG.allAlive && NeverTwoLead(run)
    ensures var s := run[|run| - 1];
      && |s.nodes| == 3 && Leads(s, 0) && s.nodes[0].log.commitIdx == 1 && s.nodes[2] == Follower2()
      && Packet(0, 2, NEXT) in s.net
  {
    hide Next, Init, Shaped, StartState;
    StartIsInit();
    var s1, r1 := OneStands();
    var s2, r2 := ZeroStands(s1);
    var s3, r3 := BothVote(s2);
    var s4, r4 := Elected(s3);
    var s5, r5 := TwoStands(s4);
    var s6, r6 := SendsFirst(s5);
    var s7, r7 := SendsBoth(s6);
    var s8, r8 := BothAnswer(s7);
    var s9, r9 := TwoIsLed(s8);
    var s10, r10 := SendsNext(s9);
    var s11, r11 := CommitsBoth(s10);
    hide At, Linked, Leads;
    run := JoinAll(CFG, [r1, r2, r3, r4, r5, r6, r7, r8, r9, r10, r11]);
    assert IsRun(CFG, run);
    VotesOnceMeansOneLeader(CFG, run);
  }

  // Votes are counted once and only one node ever leads, and still the leader ends with a
  // commit index above the stable index of a follower it no longer counts.
  lemma CommitOutrunsDeadFollower() returns (run: seq<State>)
    ensures IsRun(CFG, run) && CFG.votesOnce && !CFG.allAlive && NeverTwoLead(run)
    ensures var s := run[|run| - 1];
      && |s.nodes| == 3 && Leads(s, 0) && s.nodes[2].role == Follower
      && s.nodes[2].log.stableIdx < s.nodes[0].log.commitIdx
  {
    run := WholeRun();
    hide IsRun, NeverTwoLead;
  }

  // And a follower refuses an APPEND of its accepted leader, in its own term, that starts
  // right behind its stable log.
  lemma InOrderAppendIsRefused() returns (run: seq<State>, p: Packet)
    ensures IsRun(CFG, run) && CFG.votesOnce && NeverTwoLead(run)
    ensures var s := run[|run| - 1];
      && Arrives(CFG, s, p) && s.nodes[p.dst].role == Follower && s.nodes[p.dst].term == p.body.term
      && p.body.prevLogIdx == s.nodes[p.dst].log.stableIdx
      && Process(s.nodes[p.dst], LidOf(p.dst, p.src), CFG.ids[p.src], p.body, NO_RETRANSMISSION, 0)
           == (s.nodes[p.dst], Refused(s.nodes[p.dst].term, s.nodes[p.dst].log.stableIdx))
  {
    run := WholeRun();
    p := Packet(0, 2, NEXT);
    TwoRefuses();
    hide IsRun, NeverTwoLead, Process;
  }
}
