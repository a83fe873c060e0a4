/** follower.c: the packets a follower reacts to. */
module FollowerRole {
  import opened Types
  import opened RingLogs
  import opened Nodes
  import opened Consensus

  function CommitOn(n: Node, commitIdx: int, accepts: nat): Node
    requires n.Shaped()
  {
    n.(log := CommitLog(n.log, commitIdx, accepts))
  }

  function OnAlive(n: Node, lid: nat, rid: nat, b: Body, accepts: nat): Node
    requires n.Shaped() && lid < n.NumTargets() && b.Alive?
  {
    var n1 := if b.term > n.term then AcceptLeader(n, lid, rid, b.term) else n;
    if b.term == n1.term && b.commitIdx != -1 then CommitOn(n1, b.commitIdx, accepts) else n1
  }

  function OnAppend(n: Node, lid: nat, rid: nat, b: Body, retransIdx: int, accepts: nat): (Node, Output)
    requires n.Shaped() && lid < n.NumTargets() && b.Append?
  {
    if n.leaderId != rid || b.term < n.term then (n, Silent)
    else if b.term > n.term then HandleAppendRpc(AcceptLeader(n, lid, rid, b.term), b, rid, retransIdx)
    else
      var (n1, out) := HandleAppendRpc(n, b, rid, retransIdx);
      (CommitOn(n1, b.commitIdx, accepts), out)
  }

  function FollowerProcessPkt(n: Node, lid: nat, rid: nat, b: Body, retransIdx: int, accepts: nat): (Node, Output)
    requires n.Shaped() && lid < n.NumTargets()
  {
    match b
    case Nomi(term, candidateId, lastIdx, lastTerm) =>
      var (learned, granted) := CheckHandleNomination(n, term, lastIdx, lastTerm, rid);
      if granted then (learned.(voted := term), Reply(Vote(term, candidateId))) else (learned, Silent)
    case Alive(_, _, _, _) => (OnAlive(n, lid, rid, b, accepts), Silent)
    case Append(_, _, _, _, _, _, _) => OnAppend(n, lid, rid, b, retransIdx, accepts)
    case Vote(_, _) => (n, Silent)
    case AppendReply(_, _, _, _) => (n, Silent)
  }
}
