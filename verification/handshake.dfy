/** What one node's answer makes another node do next: properties that span two handlers. */
module Handshake {
  import opened Types
  import opened RingLogs
  import opened Nodes
  import opened Consensus
  import opened Replication
  import opened LeaderRole
  import opened CandidateRole
  import opened FollowerRole
  import opened Cluster
  import opened Election

  // ---------- following a leader ----------

  // Every retransmission request is gone, and its counter went down with it.
  ghost predicate NoRequests(n: Node, n': Node) {
    && |n'.retrans| == |n'.retransEntries| == |n.retrans| == |n.retransEntries|
    && forall k :: 0 <= k < |n.retrans| ==>
         n'.retrans[k] == [] && n'.retransEntries[k] == n.retransEntries[k] - |n.retrans[k]|
  }

  // An ALIVE makes a node follow exactly its sender if its term is higher, or if it is equal
  // and the node is a candidate; in no other case does it change role, term or leader. Only a
  // follower of that term commits on it.
  lemma AliveIsFollowedIff(n: Node, lid: nat, rid: nat, b: Body, retransIdx: int, accepts: nat)
    requires n.Shaped() && lid < n.NumTargets() && b.Alive? && n.log.commitIdx >= -1
    ensures var (n', out) := Process(n, lid, rid, b, retransIdx, accepts);
      && out == Silent && n'.voted == n.voted && n'.id == n.id && SameEnds(n.log, n'.log)
      && (if b.term > n.term || (b.term == n.term && n.role == Candidate)
          then
            && n'.role == Follower && n'.term == b.term && n'.leaderId == rid && n'.curLeaderLid == lid
            && n'.votes == 0 && n'.candidateCounter == 0
            && (n.role == Leader ==> NoRequests(n, n'))
          else n' == n.(log := n'.log))
      && n'.log.commitIdx ==
        if n.role == Follower && b.term >= n.term && n.log.commitIdx < b.commitIdx <= n.log.stableIdx
        then b.commitIdx else n.log.commitIdx
  {
    CommitKeepsEnds(n.log, b.commitIdx, accepts);
    hide CommitLog;
  }

  lemma ForeignAppendIgnored(n: Node, lid: nat, rid: nat, b: Body, retransIdx: int, accepts: nat)
    requires n.Shaped() && lid < n.NumTargets() && b.Append?
    requires rid != n.leaderId || b.term < n.term || n.role == Leader
    ensures Process(n, lid, rid, b, retransIdx, accepts) == (n, Silent)
  {
  }

  // Of all messages only an APPEND moves the receiving end of a log.
  lemma OtherMessagesKeepEnds(n: Node, lid: nat, rid: nat, b: Body, retransIdx: int, accepts: nat)
    requires n.Shaped() && lid < n.NumTargets() && !b.Append?
    ensures SameEnds(n.log, Process(n, lid, rid, b, retransIdx, accepts).0.log)
  {
    if b.Alive? {
      CommitKeepsEnds(n.log, b.commitIdx, accepts);
    }
    hide ApplyLog, BestMatch;
  }

  ghost predicate MovesLogEnd(cfg: Config, s: State, step: Step, i: nat)
    requires Shaped(cfg, s) && Enabled(cfg, s, step) && i < |s.nodes|
  {
    || (step.ClientAppend? && step.i == i)
    || (step.Deliver? && step.p.dst == i && step.p.body.Append? && s.nodes[i].role != Leader
        && cfg.ids[step.p.src] == s.nodes[i].leaderId && step.p.body.term >= s.nodes[i].term)
  }

  lemma StepKeepsEnds(cfg: Config, s: State, step: Step, i: nat)
    requires Shaped(cfg, s) && Enabled(cfg, s, step) && i < |s.nodes| && !MovesLogEnd(cfg, s, step, i)
    ensures |Apply(cfg, s, step).nodes| == |s.nodes|
    ensures SameEnds(s.nodes[i].log, Apply(cfg, s, step).nodes[i].log)
  {
    match step
    case Deliver(p, retransIdx, accepts) =>
      var lid, rid := LidOf(p.dst, p.src), cfg.ids[p.src];
      if p.dst == i {
        if p.body.Append? {
          ForeignAppendIgnored(s.nodes[i], lid, rid, p.body, retransIdx, accepts);
        } else {
          OtherMessagesKeepEnds(s.nodes[i], lid, rid, p.body, retransIdx, accepts);
        }
      }
      hide Process, SameEnds;
    case _ =>
  }

  // Whatever a network does to a run, a node's log only ever grows by its own clients while
  // it leads, or by an APPEND of the leader it has accepted, of its own term or a later one.
  lemma LogGrowsOnlyFromItsLeader(cfg: Config, run: seq<State>, t: nat, i: nat) returns (step: Step)
    requires IsRun(cfg, run) && 0 < t < |run| && i < |run[t - 1].nodes|
    ensures Shaped(cfg, run[t - 1]) && Enabled(cfg, run[t - 1], step) && run[t] == Apply(cfg, run[t - 1], step)
    ensures i < |run[t].nodes|
    ensures !SameEnds(run[t - 1].nodes[i].log, run[t].nodes[i].log) ==> MovesLogEnd(cfg, run[t - 1], step, i)
  {
    step := StepAt(cfg, run, t);
    hide Apply, Enabled, SameEnds, MovesLogEnd;
    if MovesLogEnd(cfg, run[t - 1], step, i) {
      StepKeepsSize(cfg, run[t - 1], step);
    } else {
      StepKeepsEnds(cfg, run[t - 1], step, i);
    }
  }

  lemma StepKeepsSize(cfg: Config, s: State, step: Step)
    requires Shaped(cfg, s) && Enabled(cfg, s, step)
    ensures |Apply(cfg, s, step).nodes| == |s.nodes|
  {
    hide Process, UpdateLeader, CheckPending, PrepareLogReplication;
  }

  // ---------- an APPEND ----------

  // The entries of a message have been received from index `start` on, in a given term, and
  // nothing else has.
  ghost predicate Adds(received: map<int, Entry>, received': map<int, Entry>, entries: seq<Chunk>,
                       term: int, start: int)
  {
    && (forall j :: j in received' <==> j in received || start <= j < start + |entries|)
    && (forall j :: start <= j < start + |entries| ==> received'[j] == Entry(term, entries[j - start]))
    && (forall j :: j in received && !(start <= j < start + |entries|) ==> received'[j] == received[j])
  }

  lemma WrittenAdds(received: map<int, Entry>, entries: seq<Chunk>, term: int, start: int)
    ensures Adds(received, Written(received, entries, term, start), entries, term, start)
  {
    var written := Written(received, entries, term, start);
    hide Written;
    forall j
      ensures j in written <==> j in received || start <= j < start + |entries|
      ensures start <= j < start + |entries| ==> written[j] == Entry(term, entries[j - start])
      ensures j in received && !(start <= j < start + |entries|) ==> written[j] == received[j]
    {
      WrittenAt(received, entries, term, start, j);
    }
  }

  // Entries received right behind the stable log become stable, all of them.
  lemma InOrderIsStable(l: RingLog, l': RingLog, received: map<int, Entry>, received': map<int, Entry>,
                        entries: seq<Chunk>, term: int)
    requires -1 <= l.stableIdx && -1 <= l'.stableIdx && StableExact(l, received) && StableExact(l', received')
    requires Adds(received, received', entries, term, l.stableIdx + 1)
    ensures l'.stableIdx >= l.stableIdx + |entries|
  {
    assert l'.stableIdx + 1 !in received';
  }

  // The sender of an APPEND a node listens to: the leader it has accepted, in the node's own
  // term or a later one.
  predicate Heard(n: Node, rid: nat, b: Body) {
    n.role != Leader && rid == n.leaderId && b.term >= n.term
  }

  // The term a node files the entries of an APPEND under: a follower takes over the message's
  // term first, a candidate keeps its own.
  function FiledUnder(n: Node, b: Body): int {
    if n.role == Follower then b.term else n.term
  }

  // A node that does not listen does nothing. One that does takes all entries of a message
  // that names the term of its last stable entry, whether the message is of its own term or
  // of a later one, and acknowledges the stable index it ends with; it refuses any other
  // message that is not old or empty. Only a follower of the message's term commits on it.
  lemma AppendIsAnswered(n: Node, received: map<int, Entry>, lid: nat, rid: nat, b: Body, retransIdx: int, accepts: nat)
    returns (received': map<int, Entry>)
    requires n.Shaped() && lid < n.NumTargets() && b.Append?
    requires Refines(n.log, received) && StableExact(n.log, received)
    requires b.prevLogIdx >= n.log.stableIdx ==>
      b.prevLogIdx + |b.entries| <= n.log.lastApplied + |n.log.slots| && b.prevLogIdx + |b.entries| <= INT32_MAX
    ensures var (n', out) := Process(n, lid, rid, b, retransIdx, accepts);
      && Refines(n'.log, received') && StableExact(n'.log, received')
      && n'.role == n.role && n'.id == n.id && n'.voted == n.voted && n'.leaderId == n.leaderId
      && (if !Heard(n, rid, b) then n' == n && out == Silent && received' == received
          else
            && n'.term == FiledUnder(n, b)
            && n'.curLeaderLid == (if n.role == Follower && b.term > n.term then lid else n.curLeaderLid)
            && n'.log.commitIdx == (
                 if n.role == Follower && b.term == n.term && n.log.commitIdx < b.commitIdx <= n'.log.stableIdx
                 then b.commitIdx else n.log.commitIdx)
            && (if OldOrEmpty(n.log, b) then out == Silent && received' == received
                else if Acceptable(n.log, received, b) then
                  && Adds(received, received', b.entries, n'.term, b.prevLogIdx + 1)
                  && (b.prevLogIdx == n.log.stableIdx ==> n'.log.stableIdx >= b.prevLogIdx + |b.entries|)
                  && out == Acknowledged(n'.term, retransIdx, n'.log.stableIdx)
                else out == Refused(n'.term, n.log.stableIdx) && received' == received))
  {
    hide Refines, StableExact, HandleAppendRpc, Adds, Written, Acceptable, Acknowledged, Refused, CommitLog;
    received' := received;
    if Heard(n, rid, b) {
      var n1 := if n.role == Follower && b.term > n.term then AcceptLeader(n, lid, rid, b.term) else n;
      received' := HandleAppendKeeps(n1, received, b, rid, retransIdx);
      WrittenAdds(received, b.entries, n1.term, b.prevLogIdx + 1);
      var n2 := HandleAppendRpc(n1, b, rid, retransIdx).0;
      if received' == Written(received, b.entries, n1.term, b.prevLogIdx + 1) && b.prevLogIdx == n.log.stableIdx {
        RefinesCursors(n.log, received);
        RefinesCursors(n2.log, received');
        InOrderIsStable(n.log, n2.log, received, received', b.entries, n1.term);
      }
      if n.role == Follower && b.term == n.term {
        CommitRefines(n2.log, received', b.commitIdx, accepts);
        CommitKeepsExact(n2.log, received', b.commitIdx, accepts);
      }
    }
  }

  lemma CommitKeepsExact(l: RingLog, received: map<int, Entry>, commitIdx: int, accepts: nat)
    requires |l.slots| > 0 && StableExact(l, received)
    ensures StableExact(CommitLog(l, commitIdx, accepts), received)
  {
    CommitKeepsEnds(l, commitIdx, accepts);
  }

  // ---------- answers to an APPEND ----------

  // A refused APPEND makes the leader go on exactly where the follower's stable log ends,
  // so that its next message is neither old nor a gap for that follower.
  lemma RejectionResumes(f: Node, n: Node, lid: nat, b: Body, rid: nat, retransIdx: int, maxPerPkt: nat)
    requires f.Shaped() && b.Append? && n.Shaped() && lid < n.NumTargets() && maxPerPkt > 0
    requires HandleAppendRpc(f, b, rid, retransIdx).1.Reply?
    requires HandleAppendRpc(f, b, rid, retransIdx).1.body.success == 0
    requires -1 <= f.log.stableIdx <= n.log.lastIdx && SendsFrom(n, f.log.stableIdx + 1)
    ensures var n' := OnAppendReply(n, lid, HandleAppendRpc(f, b, rid, retransIdx).1.body);
      && n'.nextIndex[lid] == f.log.stableIdx + 1
      && var out := SetupAppendMsg(n', lid, 0, false, maxPerPkt).out;
         (out.Some? <==> f.log.stableIdx < n.log.lastIdx)
         && (out.Some? ==> out.value.Append? && out.value.prevLogIdx == f.log.stableIdx)
  {
    var n' := OnAppendReply(n, lid, HandleAppendRpc(f, b, rid, retransIdx).1.body);
    assert n' == n.(nextIndex := n.nextIndex[lid := f.log.stableIdx + 1]);
    SendOne(n', lid, maxPerPkt);
  }

  // A successful APPEND makes the leader note exactly the follower's new stable index.
  lemma SuccessIsMatched(f: Node, n: Node, lid: nat, b: Body, rid: nat, retransIdx: int)
    requires f.Shaped() && b.Append? && n.Shaped() && lid < n.NumTargets()
    requires HandleAppendRpc(f, b, rid, retransIdx).1.Reply?
    requires HandleAppendRpc(f, b, rid, retransIdx).1.body.success == 1
    ensures var (f', out) := HandleAppendRpc(f, b, rid, retransIdx);
      var n' := OnAppendReply(n, lid, out.body);
      n'.matchIndex == if f'.log.stableIdx <= n.log.lastIdx then n.matchIndex[lid := f'.log.stableIdx] else n.matchIndex
  {
    hide AppendCommands, BestMatch;
  }

  lemma RequestReply(f: Node, b: Body, rid: nat, retransIdx: int)
    requires f.Shaped() && b.Append?
    requires HandleAppendRpc(f, b, rid, retransIdx).1.Reply?
    requires HandleAppendRpc(f, b, rid, retransIdx).1.body.success == 2
    ensures var (f', out) := HandleAppendRpc(f, b, rid, retransIdx);
      out.body == AppendReply(f.term, 2, retransIdx, f'.log.stableIdx)
  {
    hide AppendCommands;
  }

  // A retransmission request the leader can serve is the next thing it sends to a target
  // with no older request, starting at the requested index and leaving next_index alone.
  lemma RequestIsServed(f: Node, n: Node, lid: nat, b: Body, rid: nat, retransIdx: int, maxPerPkt: nat)
    requires f.Shaped() && b.Append? && n.Shaped() && lid < n.NumTargets() && ListsExact(n) && n.retrans[lid] == []
    requires n.role == Leader && n.alive[lid] && maxPerPkt > 0 && n.matchIndex[lid] != retransIdx
    requires HandleAppendRpc(f, b, rid, retransIdx).1.Reply?
    requires HandleAppendRpc(f, b, rid, retransIdx).1.body.success == 2
    requires HandleAppendRpc(f, b, rid, retransIdx).0.log.stableIdx <= n.log.lastIdx && 0 <= retransIdx <= n.log.lastIdx
    requires SendsFrom(n, retransIdx)
    ensures var n1 := OnAppendReply(n, lid, HandleAppendRpc(f, b, rid, retransIdx).1.body);
      var (n2, w) := CheckPending(n1, lid);
      && w == Some(Work(lid, retransIdx, true)) && n2 == n
      && var s := PrepareLogReplication(n2, w.value, maxPerPkt);
         s.node == n && s.out.Some? && s.out.value.Append? && s.out.value.prevLogIdx + 1 == retransIdx
  {
    assert ListExact(n.retrans[lid], n.retransEntries[lid]);
    RequestReply(f, b, rid, retransIdx);
    hide HandleAppendRpc;
    var n1 := OnAppendReply(n, lid, HandleAppendRpc(f, b, rid, retransIdx).1.body);
    assert n1 == QueueRetransmission(n, lid, retransIdx);
    assert n1.retrans[lid] == [retransIdx];
    var n2 := CheckPending(n1, lid).0;
    assert n1.retrans[lid][1..] == [];
    assert n1.retransEntries[lid] == 1 && n.retransEntries[lid] == 0;
    assert n2.retrans == n.retrans;
    assert n2.retransEntries == n.retransEntries;
    if retransIdx > 0 {
      RemainderAtMost(retransIdx - 1, |n.log.slots|);
    }
  }

  // What any acknowledgement makes of a leader: its stable index is matched, its request is
  // queued once, or its refusal moves next_index, and only if the leader's log reaches the
  // indices it names.
  lemma AckIsNoted(n: Node, lid: nat, rid: nat, b: Body, retransIdx: int, accepts: nat)
    requires n.Shaped() && lid < n.NumTargets() && n.role == Leader && b.AppendReply?
    ensures var (n', out) := Process(n, lid, rid, b, retransIdx, accepts);
      var known := b.stableIdx <= n.log.lastIdx;
      && out == Silent && n' == n.(log := n'.log, matchIndex := n'.matchIndex, nextIndex := n'.nextIndex,
                                   retrans := n'.retrans, retransEntries := n'.retransEntries)
      && n'.matchIndex == (if b.success == 1 && known then n.matchIndex[lid := b.stableIdx] else n.matchIndex)
      && n'.nextIndex == (if b.success == 0 && b.loggedIdx <= n.log.lastIdx
                          then n.nextIndex[lid := b.loggedIdx + 1] else n.nextIndex)
      && n'.retrans == (if b.success == 2 && known && b.loggedIdx <= n.log.lastIdx && b.loggedIdx !in n.retrans[lid]
                        then n.retrans[lid := n.retrans[lid] + [b.loggedIdx]] else n.retrans)
      && n'.retransEntries == (if n'.retrans == n.retrans then n.retransEntries
                               else n.retransEntries[lid := n.retransEntries[lid] + 1])
      && (n'.log != n.log ==> b.success == 1 && known)
  {
    hide BestMatch, Invalidate;
  }

  // ---------- a vote ----------

  // A vote makes a candidate the leader if it is the last one missing, whatever its term; it
  // is counted otherwise, and the wait for votes starts anew.
  lemma VoteIsCounted(n: Node, lid: nat, rid: nat, b: Body, retransIdx: int, accepts: nat)
    requires n.Shaped() && lid < n.NumTargets() && b.Vote?
    ensures var (n', out) := Process(n, lid, rid, b, retransIdx, accepts);
      && out == Silent && n'.term == n.term && n'.log == n.log && n'.voted == n.voted
      && (if n.role != Candidate then n' == n
          else if n.votes + 1 == n.NumTargets() then
            && n'.role == Leader && n'.votes == 0 && n'.candidateCounter == 0 && n'.curLeaderLid == -1
            && forall k :: 0 <= k < n.NumTargets() ==>
                 n'.nextIndex[k] == n.log.stableIdx + 1 && n'.matchIndex[k] == -1 && n'.retrans[k] == []
          else n' == n.(votes := n.votes + 1, candidateCounter := 0))
  {
  }

  // A node that does not lead grants a nomination exactly if its id is not above the node's
  // own, its term is later than the node's and not the one it voted in, no leader with an id
  // below the candidate's is believed alive, and the node's log is empty or its last entry
  // has the claimed term and an index the claim reaches; every negative index reaches it.
  lemma VoteIsGrantedIff(n: Node, lid: nat, rid: nat, b: Body, retransIdx: int, accepts: nat)
    requires NodeOk(n) && lid < n.NumTargets() && n.role != Leader && b.Nomi?
    requires -1 <= n.log.lastIdx <= INT32_MAX && -INT32_MAX - 1 <= b.lastIdx <= INT32_MAX
    ensures var (n', out) := Process(n, lid, rid, b, retransIdx, accepts);
      var granted :=
        && rid <= n.id && n.term < b.term && n.voted != b.term
        && !(n.curLeaderLid >= 0 && n.alive[n.curLeaderLid] && n.leaderId < rid)
        && (n.log.lastIdx == -1 ||
            (SlotAt(n.log.slots, n.log.lastIdx).term == b.lastTerm && (b.lastIdx < 0 || b.lastIdx >= n.log.lastIdx)));
      && out == (if granted then Reply(Vote(b.term, b.candidateId)) else Silent)
      && n'.term == (if n.id < rid then Max(n.term, b.term) else n.term)
      && n'.voted == (if granted then b.term else n.voted)
      && (if granted && n.role == Candidate then n'.role == Follower && n'.votes == 0 && n'.candidateCounter == 0
          else n' == n.(term := n'.term, voted := n'.voted))
      && n'.leaderId == n.leaderId && n'.curLeaderLid == n.curLeaderLid && n'.log == n.log
  {
  }

  // ---------- votes over any sequence of nominations ----------

  // A nomination as it arrives: its term, the claimed log and the sender's id.
  datatype Nominee = Nominee(term: int, lastIdx: int, lastTerm: int, rid: nat)

  // check_handle_nomination and, for a granted vote, reply_vote.
  function Nominate(n: Node, v: Nominee): (Node, bool)
    requires n.Shaped()
  {
    var (learned, granted) := CheckHandleNomination(n, v.term, v.lastIdx, v.lastTerm, v.rid);
    (if granted then learned.(voted := v.term) else learned, granted)
  }

  function NominateAll(n: Node, vs: seq<Nominee>): (n': Node)
    requires n.Shaped()
    ensures n'.Shaped()
    decreases |vs|
  {
    if vs == [] then n else NominateAll(Nominate(n, vs[0]).0, vs[1..])
  }

  // The term of the last vote granted along the way.
  function LastVote(n: Node, vs: seq<Nominee>): Option<int>
    requires n.Shaped()
    decreases |vs|
  {
    if vs == [] then None
    else
      var (n', granted) := Nominate(n, vs[0]);
      var later := LastVote(n', vs[1..]);
      if later.Some? then later else if granted then Some(vs[0].term) else None
  }

  // Both roles that vote handle a nomination this way.
  lemma NominationsAreHandled(n: Node, lid: nat, v: Nominee, candidateId: int, retransIdx: int, accepts: nat)
    requires n.Shaped() && lid < n.NumTargets() && n.role != Leader
    ensures var (n', granted) := Nominate(n, v);
      var (p, out) := Process(n, lid, v.rid, Nomi(v.term, candidateId, v.lastIdx, v.lastTerm), retransIdx, accepts);
      && p.term == n'.term && p.voted == n'.voted
      && out == (if granted then Reply(Vote(v.term, candidateId)) else Silent)
  {
  }

  // No nomination heard from an id above the node's own has reached this term.
  ghost predicate TermNotReached(n: Node, vs: seq<Nominee>, term: int) {
    n.term < term && forall k :: 0 <= k < |vs| && vs[k].rid > n.id ==> vs[k].term < term
  }

  lemma {:induction false} AfterNominations(n: Node, vs: seq<Nominee>, term: int)
    requires n.Shaped()
    ensures var n' := NominateAll(n, vs);
      && n' == n.(term := n'.term, voted := n'.voted)
      && n'.voted == (if LastVote(n, vs).Some? then LastVote(n, vs).value else n.voted)
      && (n'.term < term <==> TermNotReached(n, vs, term))
    decreases |vs|
  {
    if vs != [] {
      var n1, rest := Nominate(n, vs[0]).0, vs[1..];
      AfterNominations(n1, rest, term);
      assert TermNotReached(n, vs, term) <==> TermNotReached(n1, rest, term) by {
        assert forall k :: 0 <= k < |rest| ==> vs[k + 1] == rest[k];
        if TermNotReached(n1, rest, term) {
          forall k | 0 <= k < |vs| && vs[k].rid > n.id
            ensures vs[k].term < term
          {
            if k > 0 {
              assert rest[k - 1] == vs[k];
            }
          }
        }
      }
    }
  }

  // One vote per term, exactly: a node that voted in a term and then handled any sequence
  // of nominations votes in that term again if and only if its last vote since was for
  // another term, older or newer, and the term, leader and log guards let it.
  lemma VotesAgainIff(n: Node, vs: seq<Nominee>, v: Nominee)
    requires n.Shaped() && n.voted == v.term
    ensures Nominate(NominateAll(n, vs), v).1 <==>
      && LastVote(n, vs).Some? && LastVote(n, vs).value != v.term
      && v.rid <= n.id && TermNotReached(n, vs, v.term)
      && !CurrentLeaderPreferred(n, v.rid) && CandidateLogAccepted(n, v.lastIdx, v.lastTerm)
  {
    AfterNominations(n, vs, v.term);
  }

  // So one vote for any other term in between, older or newer, is enough for a second vote.
  lemma AnyOtherVoteReopensTerm(n: Node, first: Nominee, other: Nominee, second: Nominee)
    requires n.Shaped() && first.term == second.term && other.term != first.term
    requires first.rid <= n.id && other.rid <= n.id && second.rid <= n.id
    requires Nominate(n, first).1 && Nominate(Nominate(n, first).0, other).1
    requires !CurrentLeaderPreferred(n, second.rid) && CandidateLogAccepted(n, second.lastIdx, second.lastTerm)
    ensures Nominate(NominateAll(n, [first, other]), second).1
  {
    var n1 := Nominate(n, first).0;
    assert NominateAll(n, [first, other]) == NominateAll(n1, [other]);
    assert LastVote(n1, [other]) == Some(other.term);
    VotesAgainIff(n1, [other], second);
  }

  // However many nominations it hears from ids above its live leader's, a node grants none
  // and keeps its vote and its leader; its term moves only for ids above its own.
  lemma {:induction false} LiveLeaderKeepsVotes(n: Node, vs: seq<Nominee>)
    requires n.Shaped() && 0 <= n.curLeaderLid && n.alive[n.curLeaderLid]
    requires forall k :: 0 <= k < |vs| ==> vs[k].rid > n.leaderId
    ensures var n' := NominateAll(n, vs);
      && LastVote(n, vs) == None && n' == n.(term := n'.term)
      && (n'.term == n.term <==> forall k :: 0 <= k < |vs| && vs[k].rid > n.id ==> vs[k].term <= n.term)
    decreases |vs|
  {
    if vs != [] {
      LiveLeaderKeepsVotes(Nominate(n, vs[0]).0, vs[1..]);
      AfterNominations(n, vs, n.term + 1);
      assert NominateAll(n, vs).term >= n.term by { TermGrows(n, vs); }
    }
  }

  lemma {:induction false} TermGrows(n: Node, vs: seq<Nominee>)
    requires n.Shaped()
    ensures NominateAll(n, vs).term >= n.term
    decreases |vs|
  {
    if vs != [] {
      TermGrows(Nominate(n, vs[0]).0, vs[1..]);
    }
  }

  // ---------- standing for election ----------

  // A node broadcasts a nomination exactly when no live leader is known, it has the least
  // id among itself and its live targets, it is not still waiting for votes, and it has
  // at least two targets.
  lemma StandsExactlyWhenLowest(n: Node)
    requires n.Shaped() && n.role != Leader
    ensures UpdateLeader(n).1.Broadcast? <==>
      && (n.curLeaderLid == -1 || !n.alive[n.curLeaderLid])
      && (forall k :: 0 <= k < n.NumTargets() && n.alive[k] ==> n.id <= n.peers[k])
      && !(n.role == Candidate && n.candidateCounter < CANDIDATE_COUNTER_LIMIT)
      && n.NumTargets() >= 2
    ensures var (n', out) := UpdateLeader(n);
      if out.Broadcast? then
        && n' == n.(role := Candidate, term := n.term + 1, votes := 0, candidateCounter := 0)
        && out.body == Nomi(n.term + 1, n.id, n.log.stableIdx,
             if n.log.lastApplied == -1 then n.term + 1 else SlotAt(n.log.slots, n.log.lastApplied).term)
      else out == Silent && n' == n.(votes := n'.votes, candidateCounter := n'.candidateCounter)
  {
    LowestAliveIsMinimum(n, n.NumTargets());
  }

  // Heartbeats of a candidate nobody answers.
  function Heartbeats(n: Node, count: nat): (n': Node)
    requires n.Shaped()
    ensures n'.Shaped()
  {
    if count == 0 then n else UpdateLeader(Heartbeats(n, count - 1)).0
  }

  // A waiting candidate keeps its term for CANDIDATE_COUNTER_LIMIT heartbeats and stands
  // again, one term later, on the next.
  lemma {:induction false} CandidateRetries(n: Node, count: nat)
    requires n.Shaped() && n.role == Candidate && n.candidateCounter == 0 && n.NumTargets() >= 2
    requires n.curLeaderLid == -1 && forall k :: 0 <= k < n.NumTargets() && n.alive[k] ==> n.id <= n.peers[k]
    requires count <= CANDIDATE_COUNTER_LIMIT
    ensures Heartbeats(n, count) == n.(candidateCounter := count)
    ensures count == CANDIDATE_COUNTER_LIMIT ==>
      Heartbeats(n, count + 1) == n.(votes := 0, term := n.term + 1)
    decreases count
  {
    LowestAliveIsMinimum(n.(candidateCounter := count), n.NumTargets());
    if count > 0 {
      CandidateRetries(n, count - 1);
      LowestAliveIsMinimum(n.(candidateCounter := count - 1), n.NumTargets());
    }
  }
}
