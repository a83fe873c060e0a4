/** The node the source keeps (struct consensus_priv and the target arrays it uses); each
    method updates it in place and computes the function of the same name. */
module ConsensusPrivs {
  import opened Types
  import opened RingLogs
  import opened KvStore
  import opened Nodes
  import C = Consensus
  import R = Replication
  import LR = LeaderRole
  import CR = CandidateRole
  import FR = FollowerRole

  class ConsensusPriv {
    const id: nat
    const peers: seq<nat>
    const alive: array<bool>
    const smLog: SmLog
    const nextIndex: array<int>
    const matchIndex: array<int>
    const retransEntries: array<int>
    var role: Role
    var term: int
    var voted: int
    var leaderId: int
    var curLeaderLid: int
    var votes: int
    var candidateCounter: int
    var nextRetransReqIdx: int
    var retrans: seq<seq<int>>

    ghost predicate Valid()
      reads this
    {
      && smLog.Valid()
      && alive.Length == nextIndex.Length == matchIndex.Length == retransEntries.Length == |peers| == |retrans|
      && nextIndex != matchIndex && nextIndex != retransEntries && matchIndex != retransEntries
      && -1 <= curLeaderLid < |peers|
    }

    ghost function View(): (n: Node)
      reads this, alive, smLog, smLog.entries, nextIndex, matchIndex, retransEntries
      ensures Valid() ==> n.Shaped()
    {
      Node(id, role, term, voted, leaderId, curLeaderLid, votes, candidateCounter, peers, alive[..],
           smLog.View(), nextRetransReqIdx, nextIndex[..], matchIndex[..], retrans, retransEntries[..])
    }

    // consensus_init followed by the first transition to follower.
    constructor (id: nat, peers: seq<nat>, maxEntries: nat)
      requires maxEntries > 0
      ensures Valid() && fresh(smLog) && fresh(smLog.entries) && fresh(alive)
      ensures fresh(nextIndex) && fresh(matchIndex) && fresh(retransEntries)
      ensures var n := View();
        && n.id == id && n.peers == peers && n.role == Follower && n.term == 0 && n.voted == -1
        && n.curLeaderLid == -1 && n.votes == 0 && n.nextRetransReqIdx == NO_RETRANSMISSION
        && n.retrans == Repeat([], |peers|) && n.retransEntries == Repeat(0, |peers|)
        && |n.log.slots| == maxEntries && Refines(n.log, map[]) && StableExact(n.log, map[])
    {
      this.id, this.peers := id, peers;
      alive := new bool[|peers|](_ => false);
      smLog := new SmLog(maxEntries);
      nextIndex := new int[|peers|](_ => 0);
      matchIndex := new int[|peers|](_ => -1);
      retransEntries := new int[|peers|](_ => 0);
      role, term, voted, leaderId, curLeaderLid := Follower, 0, -1, 0, -1;
      votes, candidateCounter, nextRetransReqIdx := 0, 0, NO_RETRANSMISSION;
      retrans := Repeat([], |peers|);
      new;
      assert retransEntries[..] == Repeat(0, |peers|);
    }

    // ---------- voting ----------

    method CheckHandleNomination(param1: int, param3: int, param4: int, rid: nat) returns (granted: bool)
      requires Valid()
      modifies this`term
      ensures Valid()
      ensures (View(), granted) == C.CheckHandleNomination(old(View()), param1, param3, param4, rid)
    {
      if id < rid && term < param1 {
        term := param1;
      }
      if term < param1 {
        if voted == param1 {
          return false;
        }
        if curLeaderLid >= 0 && curLeaderLid < |peers| {
          if alive[curLeaderLid] && leaderId < rid {
            return false;
          }
        }
        if smLog.lastIdx == -1 {
          return true;
        }
        var bufLastIdx := BufferIdx(smLog.entries.Length, smLog.lastIdx);
        if ToU32(param3) >= ToU32(smLog.lastIdx) {
          if smLog.entries[bufLastIdx].term == param4 {
            return true;
          }
        }
      }
      return false;
    }

    method ReplyVote(param1: int, param2: int) returns (reply: Body)
      requires Valid()
      modifies this`voted
      ensures Valid() && View() == old(View()).(voted := param1) && reply == Vote(param1, param2)
    {
      voted := param1;
      return Vote(param1, param2);
    }

    // ---------- roles ----------

    method CleanRequestTransmissionLists()
      requires Valid()
      modifies this`retrans, retransEntries
      ensures Valid() && View() == C.StopLeader(old(View()))
    {
      var i := 0;
      while i < |peers|
        invariant 0 <= i <= |peers| && Valid()
        invariant forall k :: 0 <= k < i ==>
          retrans[k] == [] && retransEntries[k] == old(retransEntries[k]) - |old(retrans)[k]|
        invariant forall k :: i <= k < |peers| ==>
          retrans[k] == old(retrans)[k] && retransEntries[k] == old(retransEntries[k])
      {
        while retrans[i] != []
          invariant Valid()
          invariant |retrans[i]| <= |old(retrans)[i]|
          invariant retransEntries[i] == old(retransEntries[i]) - |old(retrans)[i]| + |retrans[i]|
          invariant forall k :: 0 <= k < i ==>
            retrans[k] == [] && retransEntries[k] == old(retransEntries[k]) - |old(retrans)[k]|
          invariant forall k :: i < k < |peers| ==>
            retrans[k] == old(retrans)[k] && retransEntries[k] == old(retransEntries[k])
          decreases |retrans[i]|
        {
          retrans := retrans[i := retrans[i][1..]];
          retransEntries[i] := retransEntries[i] - 1;
        }
        i := i + 1;
      }
      assert retransEntries[..] == C.StopLeader(old(View())).retransEntries;
      assert retrans == C.StopLeader(old(View())).retrans;
    }

    method StopRole()
      requires Valid()
      modifies this`retrans, retransEntries
      ensures Valid() && View() == C.StopRole(old(View()))
    {
      if role == Leader {
        CleanRequestTransmissionLists();
      }
    }

    method BecomeFollower()
      requires Valid()
      modifies this, retransEntries
      ensures Valid() && View() == C.BecomeFollower(old(View()))
    {
      StopRole();
      votes := 0;
      role := Follower;
      candidateCounter := 0;
    }

    method BecomeCandidate() returns (out: Output)
      requires Valid()
      modifies this, retransEntries
      ensures Valid() && (View(), out) == C.BecomeCandidate(old(View()))
    {
      StopRole();
      votes := 0;
      if |peers| < 2 {
        return Silent;
      }
      role := Candidate;
      candidateCounter := 0;
      term := term + 1;
      var lastLogTerm := term;
      if smLog.lastApplied != -1 {
        lastLogTerm := smLog.entries[BufferIdx(smLog.entries.Length, smLog.lastApplied)].term;
      }
      return Broadcast(Nomi(term, id, smLog.stableIdx, lastLogTerm));
    }

    method InitializeIndices()
      requires Valid()
      modifies this`retrans, nextIndex, matchIndex, retransEntries
      ensures Valid()
      ensures View() == old(View()).(
        nextIndex := Repeat(smLog.stableIdx + 1, |peers|), matchIndex := Repeat(-1, |peers|),
        retrans := Repeat([], |peers|), retransEntries := Repeat(0, |peers|))
    {
      var i := 0;
      while i < |peers|
        invariant 0 <= i <= |peers| && Valid()
        invariant forall k :: 0 <= k < i ==> nextIndex[k] == smLog.stableIdx + 1 && matchIndex[k] == -1
        invariant forall k :: 0 <= k < i ==> retrans[k] == [] && retransEntries[k] == 0
      {
        nextIndex[i] := smLog.stableIdx + 1;
        matchIndex[i] := -1;
        retrans := retrans[i := []];
        retransEntries[i] := 0;
        i := i + 1;
      }
      assert nextIndex[..] == Repeat(smLog.stableIdx + 1, |peers|);
      assert matchIndex[..] == Repeat(-1, |peers|);
      assert retrans == Repeat([], |peers|);
      assert retransEntries[..] == Repeat(0, |peers|);
    }

    method BecomeLeader()
      requires Valid()
      modifies this, nextIndex, matchIndex, retransEntries
      ensures Valid() && View() == C.BecomeLeader(old(View()))
    {
      InitializeIndices();
      votes := 0;
      candidateCounter := 0;
      role := Leader;
      curLeaderLid := -1;
    }

    method AcceptLeader(lid: nat, rid: nat, newTerm: int)
      requires Valid() && lid < |peers|
      modifies this, retransEntries
      ensures Valid() && View() == C.AcceptLeader(old(View()), lid, rid, newTerm)
    {
      term := newTerm;
      leaderId := rid;
      curLeaderLid := lid;
      BecomeFollower();
    }

    method AcceptVote()
      requires Valid()
      modifies this, nextIndex, matchIndex, retransEntries
      ensures Valid() && View() == CR.AcceptVote(old(View()))
    {
      votes := votes + 1;
      if votes == |peers| {
        BecomeLeader();
      } else {
        candidateCounter := 0;
      }
    }

    // ---------- replication, follower side ----------

    method CheckPrevLogMatch(prevLogTerm: int, prevLogIdx: int) returns (ok: bool)
      requires Valid()
      ensures ok == C.PrevLogMatches(smLog.View(), prevLogTerm, prevLogIdx)
    {
      if prevLogIdx == -1 {
        return true;
      }
      var bufIdx := BufferIdx(smLog.entries.Length, prevLogIdx);
      if ToU32(prevLogIdx) > ToU32(smLog.lastIdx) {
        return false;
      }
      return smLog.entries[bufIdx].term == prevLogTerm;
    }

    method AppendCommands(entries: seq<Chunk>, start: int, pktSize: int, unstable: bool) returns (ok: bool)
      requires Valid()
      modifies smLog, smLog.entries
      ensures Valid()
      ensures var r := C.AppendCommands(old(smLog.View()), entries, term, start, pktSize, unstable);
        ok == r.Some? && smLog.View() == if ok then r.value else old(smLog.View())
    {
      if |entries| * AE_ENTRY_SIZE + ASGARD_PROTO_CON_AE_BASE_SZ > pktSize {
        return false;
      }
      var k := 0;
      while k < |entries|
        invariant 0 <= k <= |entries| && smLog.Valid()
        invariant k == 0 ==> smLog.View() == old(smLog.View())
        invariant k > 0 ==> smLog.commitIdx < start + k
        invariant C.AppendAll(smLog.View(), entries[k..], term, start + k)
               == C.AppendAll(old(smLog.View()), entries, term, start)
      {
        var appended := smLog.AppendCommand(entries[k], term, start + k);
        if !appended {
          return false;
        }
        assert entries[k..][1..] == entries[k + 1..];
        k := k + 1;
      }
      if !unstable {
        smLog.UpdateStableIdx();
      }
      return true;
    }

    method HandleAppendRpc(b: Body, rid: nat, retransIdx: int) returns (out: Output)
      requires Valid() && b.Append?
      modifies this`nextRetransReqIdx, smLog, smLog.entries
      ensures Valid() && (View(), out) == C.HandleAppendRpc(old(View()), b, rid, retransIdx)
    {
      if |b.entries| == 0 {
        return Silent;
      }
      if b.prevLogIdx < smLog.stableIdx {
        return Silent;
      }
      var unstable := false;
      if b.prevLogIdx > smLog.stableIdx {
        if b.prevLogTerm == term && leaderId == rid {
          unstable := true;
        }
      }
      var matches := CheckPrevLogMatch(b.prevLogTerm, smLog.stableIdx);
      if !matches {
        return Reply(AppendReply(term, 0, smLog.stableIdx, smLog.stableIdx));
      }
      var ok := AppendCommands(b.entries, b.prevLogIdx + 1, b.pktSize, unstable);
      if !ok {
        return Reply(AppendReply(term, 0, smLog.stableIdx, smLog.stableIdx));
      }
      nextRetransReqIdx := retransIdx;
      if nextRetransReqIdx != NO_RETRANSMISSION {
        return Reply(AppendReply(term, 2, nextRetransReqIdx, smLog.stableIdx));
      }
      return Reply(AppendReply(term, 1, smLog.stableIdx, smLog.stableIdx));
    }

    // ---------- the commit rule ----------

    method IsPotentialCommitIdx(N: int) returns (potential: bool)
      requires Valid()
      ensures potential == LR.IsPotentialCommitIdx(View(), N)
    {
      var i, hits := 0, 0;
      while i < |peers|
        invariant 0 <= i <= |peers|
        invariant hits == LR.Hits(View(), N, i)
      {
        if !alive[i] {
          hits := hits + 1;
        } else if matchIndex[i] >= N {
          hits := hits + 1;
        }
        i := i + 1;
      }
      return hits >= |peers|;
    }

    // The first loop of update_commit_idx; None is its early return.
    method BestMatch() returns (best: Option<int>)
      requires Valid()
      ensures best == LR.BestMatch(View(), 0, -1)
    {
      var N, i := -1, 0;
      while i < |peers|
        invariant 0 <= i <= |peers|
        invariant LR.BestMatch(View(), i, N) == LR.BestMatch(View(), 0, -1)
      {
        var currentN := matchIndex[i];
        if currentN == -1 {
          return None;
        }
        if currentN > smLog.lastIdx {
          return None;
        }
        if smLog.entries[BufferIdx(smLog.entries.Length, currentN)].term == term {
          var potential := IsPotentialCommitIdx(currentN);
          if potential {
            if currentN > N {
              N := currentN;
            }
          }
        }
        i := i + 1;
      }
      return Some(N);
    }

    // The second loop: what was just committed may be overwritten again.
    method InvalidateCommitted(prevCommitIdx: int)
      requires Valid()
      modifies smLog.entries
      ensures smLog.entries[..] == LR.Invalidate(old(smLog.entries[..]), prevCommitIdx, smLog.commitIdx)
    {
      var i := prevCommitIdx;
      while i < smLog.commitIdx
        invariant LR.Invalidate(smLog.entries[..], i, smLog.commitIdx)
               == LR.Invalidate(old(smLog.entries[..]), prevCommitIdx, smLog.commitIdx)
      {
        var bufIdx := BufferIdx(smLog.entries.Length, i);
        smLog.entries[bufIdx] := smLog.entries[bufIdx].(valid := false);
        i := i + 1;
      }
    }

    method UpdateCommitIdx()
      requires Valid()
      modifies smLog, smLog.entries
      ensures Valid() && View() == LR.UpdateCommitIdx(old(View()))
    {
      var best := BestMatch();
      hide LR.BestMatch;
      if best.None? {
        return;
      }
      var prevCommitIdx := smLog.commitIdx;
      if smLog.commitIdx < best.value {
        smLog.commitIdx := best.value;
        smLog.lastApplied := best.value;
      }
      if smLog.lastApplied == smLog.lastIdx {
        return;
      }
      InvalidateCommitted(prevCommitIdx);
    }

    // ---------- replication, leader side ----------

    method QueueRetransmission(lid: nat, idx: int)
      requires Valid() && lid < |peers|
      modifies this`retrans, retransEntries
      ensures Valid() && View() == R.QueueRetransmission(old(View()), lid, idx)
    {
      var k := 0;
      while k < |retrans[lid]|
        invariant 0 <= k <= |retrans[lid]|
        invariant idx !in retrans[lid][..k]
      {
        if retrans[lid][k] == idx {
          return;
        }
        k := k + 1;
      }
      retrans := retrans[lid := retrans[lid] + [idx]];
      retransEntries[lid] := retransEntries[lid] + 1;
    }

    method GetNextIdxForTarget(lid: nat) returns (idx: int, isRetrans: bool)
      requires Valid() && lid < |peers|
      modifies this`retrans, retransEntries
      ensures Valid() && R.NextIndex(View(), idx, isRetrans) == R.GetNextIdxForTarget(old(View()), lid)
    {
      if retransEntries[lid] > 0 {
        if retrans[lid] == [] {
          return -1, true;
        }
        retransEntries[lid] := retransEntries[lid] - 1;
        idx := retrans[lid][0];
        retrans := retrans[lid := retrans[lid][1..]];
        return idx, true;
      }
      if nextIndex[lid] > smLog.lastIdx {
        return -2, false;
      }
      return nextIndex[lid], false;
    }

    // The entries set_ae_data includes.
    method CollectEntries(first: int, count: nat) returns (chunks: seq<Chunk>)
      requires Valid()
      ensures chunks == R.Chunks(smLog.entries[..], first, count)
    {
      chunks := [];
      while |chunks| < count
        invariant |chunks| <= count
        invariant forall k :: 0 <= k < |chunks| ==> chunks[k] == SlotAt(smLog.entries[..], first + k).data
      {
        chunks := chunks + [smLog.entries[BufferIdx(smLog.entries.Length, first + |chunks|)].data];
      }
    }

    method SetupAppendMsg(lid: nat, nextIdx: int, isRetrans: bool, maxPerPkt: nat)
      returns (out: Option<Body>, more: bool)
      requires Valid() && lid < |peers|
      modifies nextIndex
      ensures Valid()
      ensures R.Sent(View(), out, more) == R.SetupAppendMsg(old(View()), lid, nextIdx, isRetrans, maxPerPkt)
    {
      var first := nextIdx;
      if !isRetrans {
        first := if nextIndex[lid] > smLog.lastIdx then -2 else nextIndex[lid];
      }
      if first < 0 {
        return None, false;
      }
      var prevLogTerm := smLog.GetPrevLogTerm(term, first - 1);
      if prevLogTerm < 0 || smLog.lastIdx < first || maxPerPkt == 0 {
        return None, false;
      }
      var count := 0;
      if maxPerPkt < smLog.lastIdx - first + 1 {
        count := maxPerPkt;
        more := true;
      } else {
        count := smLog.lastIdx - first + 1;
        more := false;
      }
      if !isRetrans {
        nextIndex[lid] := nextIndex[lid] + count;
      }
      var chunks := CollectEntries(first, count);
      out := Some(Append(term, id, first - 1, prevLogTerm, smLog.commitIdx, chunks,
                         ASGARD_PROTO_CON_AE_BASE_SZ + count * AE_ENTRY_SIZE));
    }

    // check_pending_log_rep_for_target
    method CheckPending(lid: nat) returns (work: Option<R.Work>)
      requires Valid() && lid < |peers|
      modifies this`retrans, retransEntries
      ensures Valid() && (View(), work) == R.CheckPending(old(View()), lid)
    {
      if role != Leader {
        return None;
      }
      var nextIdx, isRetrans := GetNextIdxForTarget(lid);
      if nextIdx < 0 {
        return None;
      }
      if nextIdx == matchIndex[lid] {
        return None;
      }
      return Some(R.Work(lid, nextIdx, isRetrans));
    }

    // do_prepare_log_replication, run by a worker some time later.
    method PrepareLogReplication(w: R.Work, maxPerPkt: nat) returns (out: Option<Body>, more: bool)
      requires Valid() && w.lid < |peers|
      modifies nextIndex
      ensures Valid()
      ensures R.Sent(View(), out, more) == R.PrepareLogReplication(old(View()), w, maxPerPkt)
    {
      if role != Leader {
        return None, false;
      }
      if !alive[w.lid] {
        return None, false;
      }
      out, more := SetupAppendMsg(w.lid, w.nextIndex, w.retrans, maxPerPkt);
    }

    // ---------- election trigger ----------

    method GetLowestAliveId() returns (low: nat)
      requires Valid()
      ensures low == CR.GetLowestAliveId(View(), |peers|)
    {
      low := id;
      var i := 0;
      while i < |peers|
        invariant 0 <= i <= |peers|
        invariant low == CR.GetLowestAliveId(View(), i)
      {
        if alive[i] {
          if low > peers[i] {
            low := peers[i];
          }
        }
        i := i + 1;
      }
    }

    method UpdateLeader() returns (out: Output)
      requires Valid()
      modifies this, retransEntries
      ensures Valid() && (View(), out) == CR.UpdateLeader(old(View()))
    {
      out := Silent;
      var lowest := GetLowestAliveId();
      if curLeaderLid == -1 || !alive[curLeaderLid] {
        if lowest == id {
          if role == Candidate && candidateCounter < CR.CANDIDATE_COUNTER_LIMIT {
            candidateCounter := candidateCounter + 1;
            return;
          }
          out := BecomeCandidate();
        }
      }
    }

    // ---------- packets ----------

    method FollowerProcessPkt(lid: nat, rid: nat, b: Body, retransIdx: int, accepts: nat) returns (out: Output)
      requires Valid() && lid < |peers|
      modifies this, retransEntries, smLog, smLog.entries
      ensures Valid() && (View(), out) == FR.FollowerProcessPkt(old(View()), lid, rid, b, retransIdx, accepts)
    {
      out := Silent;
      match b {
        case Nomi(param1, param2, param3, param4) =>
          var granted := CheckHandleNomination(param1, param3, param4, rid);
          if granted {
            var vote := ReplyVote(param1, param2);
            out := Reply(vote);
          }
        case Alive(param1, param2, _, _) =>
          if param1 > term {
            AcceptLeader(lid, rid, param1);
          }
          if param1 == term && param2 != -1 {
            smLog.CommitLog(param2, accepts);
          }
        case Append(param1, _, _, _, commitIdx, _, _) =>
          if leaderId != rid {
            return;
          }
          if param1 > term {
            AcceptLeader(lid, rid, param1);
            out := HandleAppendRpc(b, rid, retransIdx);
          } else if param1 == term {
            out := HandleAppendRpc(b, rid, retransIdx);
            smLog.CommitLog(commitIdx, accepts);
          }
        case _ =>
      }
    }

    method CandidateProcessPkt(lid: nat, rid: nat, b: Body, retransIdx: int) returns (out: Output)
      requires Valid() && lid < |peers|
      modifies this, nextIndex, matchIndex, retransEntries, smLog, smLog.entries
      ensures Valid() && (View(), out) == CR.CandidateProcessPkt(old(View()), lid, rid, b, retransIdx)
    {
      out := Silent;
      match b {
        case Vote(_, _) =>
          AcceptVote();
        case Nomi(param1, param2, param3, param4) =>
          var granted := CheckHandleNomination(param1, param3, param4, rid);
          if granted {
            BecomeFollower();
            var vote := ReplyVote(param1, param2);
            out := Reply(vote);
          }
        case Alive(param1, _, _, _) =>
          if param1 >= term {
            AcceptLeader(lid, rid, param1);
          }
        case Append(param1, _, _, _, _, _, _) =>
          if leaderId != rid {
            return;
          }
          if param1 >= term {
            out := HandleAppendRpc(b, rid, retransIdx);
          }
        case _ =>
      }
    }

    method LeaderProcessPkt(lid: nat, rid: nat, b: Body)
      requires Valid() && lid < |peers|
      modifies this, nextIndex, matchIndex, retransEntries, smLog, smLog.entries
      ensures Valid() && View() == LR.LeaderProcessPkt(old(View()), lid, rid, b)
    {
      match b {
        case AppendReply(_, param2, param3, param4) =>
          if param2 == 1 {
            if smLog.lastIdx < param4 {
              return;
            }
            matchIndex[lid] := param4;
            UpdateCommitIdx();
          } else if param2 == 2 {
            if smLog.lastIdx < param4 {
              return;
            }
            if smLog.lastIdx < param3 {
              return;
            }
            QueueRetransmission(lid, param3);
          } else if param2 == 0 {
            if smLog.lastIdx < param3 {
              return;
            }
            nextIndex[lid] := param3 + 1;
          }
        case Alive(param1, _, _, _) =>
          if param1 > term {
            AcceptLeader(lid, rid, param1);
          }
        case _ =>
      }
    }
  }
}
