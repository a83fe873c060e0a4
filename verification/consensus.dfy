/** consensus.c together with the role starters it calls: voting, role transitions and the
    follower side of log replication, as functions from one node value to the next. */
module Consensus {
  import opened Types
  import opened RingLogs
  import opened Nodes

  // ---------- voting ----------

  predicate CurrentLeaderPreferred(n: Node, rid: nat)
    requires n.Shaped()
  {
    0 <= n.curLeaderLid < n.NumTargets() && n.alive[n.curLeaderLid] && n.leaderId < rid
  }

  // param3 is compared as uint32_t, so -1 counts as the largest index.
  predicate CandidateLogAccepted(n: Node, param3: int, param4: int)
    requires n.Shaped()
  {
    n.log.lastIdx == -1 ||
    (ToU32(param3) >= ToU32(n.log.lastIdx) && SlotAt(n.log.slots, n.log.lastIdx).term == param4)
  }

  // A node learns the term of a nomination by a higher id, and so never votes for it.
  function LearnTerm(n: Node, param1: int, rid: nat): Node {
    if n.id < rid && n.term < param1 then n.(term := param1) else n
  }

  predicate GrantsVote(n: Node, param1: int, param3: int, param4: int, rid: nat)
    requires n.Shaped()
  {
    && n.term < param1
    && n.voted != param1
    && !CurrentLeaderPreferred(n, rid)
    && CandidateLogAccepted(n, param3, param4)
  }

  function CheckHandleNomination(n: Node, param1: int, param3: int, param4: int, rid: nat): (Node, bool)
    requires n.Shaped()
  {
    var learned := LearnTerm(n, param1, rid);
    (learned, GrantsVote(learned, param1, param3, param4, rid))
  }

  // ---------- role transitions ----------

  // last_log_term of setup_le_broadcast_msg.
  function LastLogTerm(n: Node): int
    requires n.Shaped()
  {
    if n.log.lastApplied == -1 then n.term else SlotAt(n.log.slots, n.log.lastApplied).term
  }

  function Nomination(n: Node): Body
    requires n.Shaped()
  {
    Nomi(n.term, n.id, n.log.stableIdx, LastLogTerm(n))
  }

  // stop_leader drops every pending retransmission request.
  function StopLeader(n: Node): Node
    requires n.Shaped()
  {
    n.(retrans := Repeat([], n.NumTargets()),
       retransEntries := seq(n.NumTargets(), i requires 0 <= i < n.NumTargets() =>
         n.retransEntries[i] - |n.retrans[i]|))
  }

  function StopRole(n: Node): Node
    requires n.Shaped()
  {
    if n.role == Leader then StopLeader(n) else n
  }

  function BecomeFollower(n: Node): Node
    requires n.Shaped()
  {
    StopRole(n).(votes := 0, role := Follower, candidateCounter := 0)
  }

  // With fewer than two targets start_candidate fails and only the votes are reset.
  function BecomeCandidate(n: Node): (Node, Output)
    requires n.Shaped()
  {
    var s := StopRole(n).(votes := 0);
    if n.NumTargets() < 2 then (s, Silent)
    else
      var c := s.(role := Candidate, candidateCounter := 0, term := n.term + 1);
      (c, Broadcast(Nomination(c)))
  }

  // start_leader with initialize_indices.
  function BecomeLeader(n: Node): Node
    requires n.Shaped()
  {
    n.(votes := 0, role := Leader, candidateCounter := 0, curLeaderLid := -1,
       nextIndex := Repeat(n.log.stableIdx + 1, n.NumTargets()),
       matchIndex := Repeat(-1, n.NumTargets()),
       retrans := Repeat([], n.NumTargets()),
       retransEntries := Repeat(0, n.NumTargets()))
  }

  function AcceptLeader(n: Node, lid: nat, rid: nat, term: int): Node
    requires n.Shaped() && lid < n.NumTargets()
  {
    BecomeFollower(n.(term := term, leaderId := rid, curLeaderLid := lid))
  }

  // ---------- replication, follower side ----------

  // prev_log_idx arrives as uint32_t; the caller passes its own stable index.
  predicate PrevLogMatches(l: RingLog, prevLogTerm: int, prevLogIdx: int)
    requires |l.slots| > 0
  {
    prevLogIdx == -1 ||
    (ToU32(prevLogIdx) <= ToU32(l.lastIdx) && SlotAt(l.slots, prevLogIdx).term == prevLogTerm)
  }

  function AppendAll(l: RingLog, entries: seq<Chunk>, term: int, start: int): (r: Option<RingLog>)
    requires |l.slots| > 0
    ensures r.Some? ==> |r.value.slots| == |l.slots|
    decreases |entries|
  {
    if entries == [] then Some(l)
    else
      var r := AppendCommand(l, entries[0], term, start);
      if r.None? then None else AppendAll(r.value, entries[1..], term, start + 1)
  }

  function AppendCommands(l: RingLog, entries: seq<Chunk>, term: int, start: int, pktSize: int, unstable: bool)
    : (r: Option<RingLog>)
    requires |l.slots| > 0
    ensures r.Some? ==> |r.value.slots| == |l.slots|
  {
    if |entries| * AE_ENTRY_SIZE + ASGARD_PROTO_CON_AE_BASE_SZ > pktSize then None
    else
      var r := AppendAll(l, entries, term, start);
      if r.None? || unstable then r else Some(UpdateStableIdx(r.value))
  }

  predicate UnstableAppend(n: Node, b: Body, rid: nat)
    requires b.Append?
  {
    b.prevLogIdx > n.log.stableIdx && b.prevLogTerm == n.term && n.leaderId == rid
  }

  // retransIdx is what update_next_retransmission_request_idx leaves behind.
  function HandleAppendRpc(n: Node, b: Body, rid: nat, retransIdx: int): (Node, Output)
    requires n.Shaped() && b.Append?
  {
    if b.entries == [] || b.prevLogIdx < n.log.stableIdx then (n, Silent)
    else if !PrevLogMatches(n.log, b.prevLogTerm, n.log.stableIdx) then
      (n, Reply(AppendReply(n.term, 0, n.log.stableIdx, n.log.stableIdx)))
    else
      var r := AppendCommands(n.log, b.entries, n.term, b.prevLogIdx + 1, b.pktSize, UnstableAppend(n, b, rid));
      if r.None? then
        (n, Reply(AppendReply(n.term, 0, n.log.stableIdx, n.log.stableIdx)))
      else
        var n' := n.(log := r.value, nextRetransReqIdx := retransIdx);
        var stable := r.value.stableIdx;
        if retransIdx != NO_RETRANSMISSION then (n', Reply(AppendReply(n.term, 2, retransIdx, stable)))
        else (n', Reply(AppendReply(n.term, 1, stable, stable)))
  }

  // ---------- what the follower side keeps ----------

  // The received entries after an accepted append.
  ghost function Written(received: map<int, Entry>, entries: seq<Chunk>, term: int, start: int): map<int, Entry>
    decreases |entries|
  {
    if entries == [] then received
    else Written(received[start := Entry(term, entries[0])], entries[1..], term, start + 1)
  }

  lemma {:induction false} WrittenAt(received: map<int, Entry>, entries: seq<Chunk>, term: int, start: int, k: int)
    ensures var r := Written(received, entries, term, start);
      && (k in r <==> k in received || start <= k < start + |entries|)
      && (k in r ==>
           r[k] == if start <= k < start + |entries| then Entry(term, entries[k - start]) else received[k])
    decreases |entries|
  {
    if entries != [] {
      WrittenAt(received[start := Entry(term, entries[0])], entries[1..], term, start + 1, k);
    }
  }

  // The first entry of an append is written, and the rest go on from there.
  lemma FirstToAppend(l: RingLog, received: map<int, Entry>, entries: seq<Chunk>, term: int, start: int)
    returns (l1: RingLog, received1: map<int, Entry>)
    requires Refines(l, received) && entries != [] && l.commitIdx <= start && 0 <= start <= INT32_MAX
    requires l.lastApplied < start <= l.lastApplied + |l.slots|
    ensures Refines(l1, received1) && SameProgress(l, l1) && l1.stableIdx == l.stableIdx && |l1.slots| == |l.slots| > 0
    ensures l1.commitIdx == l.commitIdx && l1.lastApplied == l.lastApplied
    ensures AppendAll(l, entries, term, start) == AppendAll(l1, entries[1..], term, start + 1)
    ensures Written(received, entries, term, start) == Written(received1, entries[1..], term, start + 1)
  {
    AppendRefines(l, received, entries[0], term, start);
    l1, received1 := AppendCommand(l, entries[0], term, start).value, received[start := Entry(term, entries[0])];
    hide Refines, AppendCommand;
  }

  lemma {:induction false} AppendAllRefines(l: RingLog, received: map<int, Entry>, entries: seq<Chunk>,
                                            term: int, start: int)
    requires Refines(l, received)
    requires l.commitIdx <= start && l.lastApplied < start && 0 <= start
    requires start + |entries| - 1 <= l.lastApplied + |l.slots| && start + |entries| - 1 <= INT32_MAX
    ensures var r := AppendAll(l, entries, term, start);
      && r.Some?
      && Refines(r.value, Written(received, entries, term, start))
      && SameProgress(l, r.value) && r.value.stableIdx == l.stableIdx
    decreases |entries|
  {
    hide Refines, InWindow, CursorsOrdered;
    RefinesCursors(l, received);
    if entries == [] {
      assert AppendAll(l, entries, term, start) == Some(l) && Written(received, entries, term, start) == received;
    } else {
      hide AppendAll, Written;
      var l1, received1 := FirstToAppend(l, received, entries, term, start);
      AppendAllRefines(l1, received1, entries[1..], term, start + 1);
    }
  }

  lemma WrittenKeepsExact(l: RingLog, l': RingLog, received: map<int, Entry>, entries: seq<Chunk>,
                          term: int, start: int)
    requires StableExact(l, received) && l'.stableIdx == l.stableIdx
    requires start > l.stableIdx + 1
    ensures StableExact(l', Written(received, entries, term, start))
  {
    forall j | 0 <= j <= l.stableIdx + 1
      ensures j in Written(received, entries, term, start) <==> j in received
    {
      WrittenAt(received, entries, term, start, j);
    }
    WrittenAt(received, entries, term, start, l.stableIdx + 1);
  }

  lemma AppendCommandsKeeps(l: RingLog, received: map<int, Entry>, entries: seq<Chunk>, term: int, start: int,
                            pktSize: int, unstable: bool)
    requires Refines(l, received) && StableExact(l, received)
    requires start > l.stableIdx && (unstable ==> start > l.stableIdx + 1)
    requires start + |entries| - 1 <= l.lastApplied + |l.slots| && start + |entries| - 1 <= INT32_MAX
    ensures var r := AppendCommands(l, entries, term, start, pktSize, unstable);
      r.Some? ==>
        && Refines(r.value, Written(received, entries, term, start))
        && StableExact(r.value, Written(received, entries, term, start))
        && SameProgress(l, r.value) && r.value.stableIdx >= l.stableIdx
  {
    RefinesCursors(l, received);
    hide Refines, StableExact, StableScan, Written;
    AppendAllRefines(l, received, entries, term, start);
    var appended := AppendAll(l, entries, term, start).value;
    if unstable {
      WrittenKeepsExact(l, appended, received, entries, term, start);
    } else {
      UpdateStableRefines(appended, Written(received, entries, term, start));
    }
  }

  // The previous term an APPEND has to name: that of the last stable entry, if there is one.
  ghost predicate FollowsOn(l: RingLog, received: map<int, Entry>, prevLogTerm: int)
    requires Refines(l, received)
  {
    l.stableIdx == -1 || prevLogTerm == TermBehind(l, received)
  }

  lemma PrevLogMatchesIff(l: RingLog, received: map<int, Entry>, prevLogTerm: int)
    requires Refines(l, received)
    ensures PrevLogMatches(l, prevLogTerm, l.stableIdx) <==> FollowsOn(l, received, prevLogTerm)
  {
    if l.stableIdx >= 0 {
      StableTermRead(l, received);
    }
  }

  ghost predicate OldOrEmpty(l: RingLog, b: Body)
    requires b.Append?
  {
    b.entries == [] || b.prevLogIdx < l.stableIdx
  }

  ghost predicate Acceptable(l: RingLog, received: map<int, Entry>, b: Body)
    requires Refines(l, received) && b.Append?
  {
    |b.entries| * AE_ENTRY_SIZE + ASGARD_PROTO_CON_AE_BASE_SZ <= b.pktSize && FollowsOn(l, received, b.prevLogTerm)
  }

  // The answer to an APPEND that was taken: an acknowledgement, or the request the gap scan
  // left behind.
  function Acknowledged(term: int, retransIdx: int, stableIdx: int): Output {
    if retransIdx == NO_RETRANSMISSION then Reply(AppendReply(term, 1, stableIdx, stableIdx))
    else Reply(AppendReply(term, 2, retransIdx, stableIdx))
  }

  function Refused(term: int, stableIdx: int): Output {
    Reply(AppendReply(term, 0, stableIdx, stableIdx))
  }

  // What becomes of an APPEND that fits the open window: an old or empty one is ignored, one
  // whose previous term is that of the last stable entry is taken, with every one of its
  // entries, and any other is refused. The refinement and the exactness of stable_idx hold
  // in each case, and stable_idx never moves back.
  lemma HandleAppendKeeps(n: Node, received: map<int, Entry>, b: Body, rid: nat, retransIdx: int)
    returns (received': map<int, Entry>)
    requires n.Shaped() && b.Append?
    requires Refines(n.log, received) && StableExact(n.log, received)
    requires b.prevLogIdx >= n.log.stableIdx ==>
      b.prevLogIdx + |b.entries| <= n.log.lastApplied + |n.log.slots| && b.prevLogIdx + |b.entries| <= INT32_MAX
    ensures var l' := HandleAppendRpc(n, b, rid, retransIdx).0.log;
      && Refines(l', received') && StableExact(l', received')
      && SameProgress(n.log, l') && l'.stableIdx >= n.log.stableIdx
    ensures var (n', out) := HandleAppendRpc(n, b, rid, retransIdx);
      if OldOrEmpty(n.log, b) then n' == n && out == Silent && received' == received
      else if Acceptable(n.log, received, b) then
        && received' == Written(received, b.entries, n.term, b.prevLogIdx + 1)
        && n' == n.(log := n'.log, nextRetransReqIdx := retransIdx)
        && out == Acknowledged(n.term, retransIdx, n'.log.stableIdx)
      else n' == n && out == Refused(n.term, n.log.stableIdx) && received' == received
  {
    hide Refines, StableExact, PrevLogMatches, AppendAll, Written, FollowsOn, UpdateStableIdx, SameProgress;
    RefinesCursors(n.log, received);
    PrevLogMatchesIff(n.log, received, b.prevLogTerm);
    SameProgressRefl(n.log);
    received' := received;
    if !OldOrEmpty(n.log, b) && Acceptable(n.log, received, b) {
      var start, unstable := b.prevLogIdx + 1, UnstableAppend(n, b, rid);
      received' := Written(received, b.entries, n.term, start);
      AppendAllRefines(n.log, received, b.entries, n.term, start);
      AppendCommandsKeeps(n.log, received, b.entries, n.term, start, b.pktSize, unstable);
    }
  }
}
