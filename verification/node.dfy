/** One cluster node (struct consensus_priv with the parts of pminfo it reads) and the
    messages nodes exchange. */
module Nodes {
  import opened Types
  import opened RingLogs

  datatype Role = Follower | Candidate | Leader

  // The body of a consensus sub-payload; the sender is known from the packet.
  datatype Body =
    | Nomi(term: int, candidateId: int, lastIdx: int, lastTerm: int)
    | Vote(term: int, candidateId: int)
    | Append(term: int, leaderId: int, prevLogIdx: int, prevLogTerm: int, commitIdx: int,
             entries: seq<Chunk>, pktSize: int)
    | AppendReply(term: int, success: int, loggedIdx: int, stableIdx: int)
    | Alive(term: int, commitIdx: int, stableIdx: int, hbInterval: int)

  // What a handler leaves in the outgoing packets.
  datatype Output = Silent | Reply(body: Body) | Broadcast(body: Body)

  // Targets are addressed by their local id, an index into peers, alive, nextIndex,
  // matchIndex, retrans and retransEntries; peers holds their cluster ids.
  datatype Node = Node(
    id: nat,
    role: Role,
    term: int,
    voted: int,
    leaderId: int,
    curLeaderLid: int,
    votes: int,
    candidateCounter: int,
    peers: seq<nat>,
    alive: seq<bool>,
    log: RingLog,
    nextRetransReqIdx: int,
    nextIndex: seq<int>,
    matchIndex: seq<int>,
    retrans: seq<seq<int>>,
    retransEntries: seq<int>)
  {
    function NumTargets(): nat {
      |peers|
    }

    // The array sizes and index ranges the source's declarations give.
    ghost predicate Shaped() {
      && |alive| == |peers| && |nextIndex| == |peers| && |matchIndex| == |peers|
      && |retrans| == |peers| && |retransEntries| == |peers|
      && -1 <= curLeaderLid < |peers|
      && |log.slots| > 0
    }
  }

  const AE_ENTRY_SIZE := 8
  const ASGARD_PROTO_CON_AE_BASE_SZ := 20
  const NO_RETRANSMISSION := -2

  function Repeat<T>(x: T, n: nat): (s: seq<T>)
    ensures |s| == n && forall i :: 0 <= i < n ==> s[i] == x
  {
    seq(n, _ => x)
  }
}
