/** candidate.c and the election trigger of pacemaker.c. */
module CandidateRole {
  import opened Types
  import opened Nodes
  import opened Consensus

  // A win needs as many counted votes as there are targets; the vote's term is not read.
  function AcceptVote(n: Node): Node
    requires n.Shaped()
  {
    if n.votes + 1 == n.NumTargets() then BecomeLeader(n)
    else n.(votes := n.votes + 1, candidateCounter := 0)
  }

  function CandidateProcessPkt(n: Node, lid: nat, rid: nat, b: Body, retransIdx: int): (Node, Output)
    requires n.Shaped() && lid < n.NumTargets()
  {
    match b
    case Vote(_, _) => (AcceptVote(n), Silent)
    case Nomi(term, candidateId, lastIdx, lastTerm) =>
      var (learned, granted) := CheckHandleNomination(n, term, lastIdx, lastTerm, rid);
      if granted then (BecomeFollower(learned).(voted := term), Reply(Vote(term, candidateId)))
      else (learned, Silent)
    case Alive(term, _, _, _) =>
      (if term >= n.term then AcceptLeader(n, lid, rid, term) else n, Silent)
    case Append(term, _, _, _, _, _, _) =>
      if n.leaderId == rid && term >= n.term then HandleAppendRpc(n, b, rid, retransIdx)
      else (n, Silent)
    case AppendReply(_, _, _, _) => (n, Silent)
  }

  // ---------- when a node stands for election ----------

  const CANDIDATE_COUNTER_LIMIT := 50

  function GetLowestAliveId(n: Node, i: nat): nat
    requires n.Shaped() && i <= n.NumTargets()
  {
    if i == 0 then n.id
    else
      var low := GetLowestAliveId(n, i - 1);
      if n.alive[i - 1] && low > n.peers[i - 1] then n.peers[i - 1] else low
  }

  lemma {:induction false} LowestAliveIsMinimum(n: Node, i: nat)
    requires n.Shaped() && i <= n.NumTargets()
    ensures var low := GetLowestAliveId(n, i);
      && low <= n.id
      && (forall k :: 0 <= k < i && n.alive[k] ==> low <= n.peers[k])
      && (low == n.id || exists k :: 0 <= k < i && n.alive[k] && n.peers[k] == low)
  {
    if i > 0 {
      LowestAliveIsMinimum(n, i - 1);
    }
  }

  // update_leader; the pacemaker calls it on every heartbeat of a node that does not lead.
  function UpdateLeader(n: Node): (Node, Output)
    requires n.Shaped()
  {
    if (n.curLeaderLid == -1 || !n.alive[n.curLeaderLid]) && GetLowestAliveId(n, n.NumTargets()) == n.id then
      if n.role == Candidate && n.candidateCounter < CANDIDATE_COUNTER_LIMIT
      then (n.(candidateCounter := n.candidateCounter + 1), Silent)
      else BecomeCandidate(n)
    else (n, Silent)
  }
}
