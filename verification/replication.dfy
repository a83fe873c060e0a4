/** The leader's sending side: next indices, retransmission lists (leader.c, replication.c)
    and the APPEND message built from the ring (payload.c). */
module Replication {
  import opened Types
  import opened RingLogs
  import opened Nodes

  // ---------- retransmission lists ----------

  function QueueRetransmission(n: Node, lid: nat, idx: int): Node
    requires n.Shaped() && lid < n.NumTargets()
  {
    if idx in n.retrans[lid] then n
    else n.(retrans := n.retrans[lid := n.retrans[lid] + [idx]],
            retransEntries := n.retransEntries[lid := n.retransEntries[lid] + 1])
  }

  // Every list is a set in first-request order and its counter is its length.
  ghost predicate ListsExact(n: Node)
    requires n.Shaped()
  {
    forall lid :: 0 <= lid < n.NumTargets() ==> ListExact(n.retrans[lid], n.retransEntries[lid])
  }

  ghost predicate ListExact(list: seq<int>, count: int) {
    count == |list| && forall i, j :: 0 <= i < j < |list| ==> list[i] != list[j]
  }

  lemma QueueKeepsLists(n: Node, lid: nat, idx: int)
    requires n.Shaped() && lid < n.NumTargets() && ListsExact(n)
    ensures var n' := QueueRetransmission(n, lid, idx);
      && n'.Shaped() && ListsExact(n')
      && n.retrans[lid] <= n'.retrans[lid]
      && (forall x :: x in n'.retrans[lid] <==> x in n.retrans[lid] || x == idx)
  {
    assert ListExact(n.retrans[lid], n.retransEntries[lid]);
  }

  // ---------- choosing what to send next ----------

  function GetNextIdx(n: Node, lid: nat): int
    requires n.Shaped() && lid < n.NumTargets()
  {
    if n.nextIndex[lid] > n.log.lastIdx then -2 else n.nextIndex[lid]
  }

  datatype NextIndex = NextIndex(node: Node, idx: int, retrans: bool)

  function GetNextIdxForTarget(n: Node, lid: nat): NextIndex
    requires n.Shaped() && lid < n.NumTargets()
  {
    if n.retransEntries[lid] > 0 then
      if n.retrans[lid] == [] then NextIndex(n, -1, true)
      else
        NextIndex(n.(retrans := n.retrans[lid := n.retrans[lid][1..]],
                retransEntries := n.retransEntries[lid := n.retransEntries[lid] - 1]),
             n.retrans[lid][0], true)
    else NextIndex(n, GetNextIdx(n, lid), false)
  }

  lemma PopKeepsLists(n: Node, lid: nat)
    requires n.Shaped() && lid < n.NumTargets() && ListsExact(n)
    ensures var r := GetNextIdxForTarget(n, lid);
      && r.node.Shaped() && ListsExact(r.node)
      && (r.retrans <==> n.retrans[lid] != [])
      && (r.retrans ==> n.retrans[lid] == [r.idx] + r.node.retrans[lid] && r.idx !in r.node.retrans[lid])
  {
    assert ListExact(n.retrans[lid], n.retransEntries[lid]);
  }

  // The work item check_pending_log_rep_for_target schedules.
  datatype Work = Work(lid: nat, nextIndex: int, retrans: bool)

  function CheckPending(n: Node, lid: nat): (Node, Option<Work>)
    requires n.Shaped() && lid < n.NumTargets()
  {
    if n.role != Leader then (n, None)
    else
      var r := GetNextIdxForTarget(n, lid);
      if r.idx < 0 || r.idx == n.matchIndex[lid] then (r.node, None)
      else (r.node, Some(Work(lid, r.idx, r.retrans)))
  }

  // ---------- the APPEND message ----------

  function Chunks(slots: seq<Slot>, first: int, count: nat): (s: seq<Chunk>)
    requires |slots| > 0
    ensures |s| == count && forall k :: 0 <= k < count ==> s[k] == SlotAt(slots, first + k).data
  {
    seq(count, k requires 0 <= k < count => SlotAt(slots, first + k).data)
  }

  function AppendBody(n: Node, first: int, prevTerm: int, count: nat): Body
    requires n.Shaped()
  {
    Append(n.term, n.id, first - 1, prevTerm, n.log.commitIdx, Chunks(n.log.slots, first, count),
           ASGARD_PROTO_CON_AE_BASE_SZ + count * AE_ENTRY_SIZE)
  }

  datatype Sent = Sent(node: Node, out: Option<Body>, more: bool)

  // The packet is a fresh one, so the reservation of its block always succeeds.
  function SetupAppendMsg(n: Node, lid: nat, nextIndex: int, retrans: bool, maxPerPkt: nat): Sent
    requires n.Shaped() && lid < n.NumTargets()
  {
    var first := if retrans then nextIndex else GetNextIdx(n, lid);
    if first < 0 then Sent(n, None, false)
    else
      var prevTerm := GetPrevLogTerm(n.log, n.term, first - 1);
      if prevTerm < 0 || n.log.lastIdx < first || maxPerPkt == 0 then Sent(n, None, false)
      else
        var more := maxPerPkt < n.log.lastIdx - first + 1;
        var count := if more then maxPerPkt else n.log.lastIdx - first + 1;
        var n' := if retrans then n else n.(nextIndex := n.nextIndex[lid := n.nextIndex[lid] + count]);
        Sent(n', Some(AppendBody(n, first, prevTerm, count)), more)
  }

  // The index a send starts from.
  function FirstSent(n: Node, lid: nat, nextIndex: int, retrans: bool): int
    requires n.Shaped() && lid < n.NumTargets()
  {
    if retrans then nextIndex else n.nextIndex[lid]
  }

  // Every message sent copies slots of indices the leader's log has reached, as many as the
  // packet takes, and names the term of the slot before them.
  lemma SentShape(n: Node, lid: nat, nextIndex: int, retrans: bool, maxPerPkt: nat)
    requires n.Shaped() && lid < n.NumTargets()
    ensures var out := SetupAppendMsg(n, lid, nextIndex, retrans, maxPerPkt).out;
      out.Some? ==>
        var b, first := out.value, FirstSent(n, lid, nextIndex, retrans);
        && b.Append? && b.prevLogIdx == first - 1 >= -1 && b.prevLogIdx + |b.entries| <= n.log.lastIdx
        && b.term == n.term && b.leaderId == n.id && b.commitIdx == n.log.commitIdx
        && b.prevLogTerm == (if first == 0 then n.term else SlotAt(n.log.slots, first - 1).term)
        && 0 < |b.entries| == Min(maxPerPkt, n.log.lastIdx + 1 - first)
        && b.entries == Chunks(n.log.slots, b.prevLogIdx + 1, |b.entries|)
        && b.pktSize == ASGARD_PROTO_CON_AE_BASE_SZ + |b.entries| * AE_ENTRY_SIZE
  {
  }

  // The leader's ring holds the last lap of what it wrote.
  ghost predicate Holds(l: RingLog, written: seq<Entry>) {
    && |l.slots| > 0 && |written| == l.lastIdx + 1
    && forall j :: 0 <= j < |written| && j > l.lastIdx - |l.slots| ==>
         SlotAt(l.slots, j).term == written[j].term && SlotAt(l.slots, j).data == written[j].data
  }

  lemma {:induction false} RemainderAtMost(x: nat, w: nat)
    requires w > 0
    ensures Remainder(x, w) <= x
    decreases x
  {
    if x >= w {
      RemainderAtMost(x - w, w);
    }
  }

  // get_prev_log_term on such a log: an index written is read back with its term, the one
  // before the first with the current term, and none before that or behind the end of a log
  // that has not come round yet.
  lemma PrevTermIsRead(l: RingLog, written: seq<Entry>, currentTerm: int, conIdx: int)
    requires Holds(l, written) && l.lastIdx <= INT32_MAX
    ensures var term := GetPrevLogTerm(l, currentTerm, conIdx);
      && (conIdx == -1 ==> term == currentTerm)
      && (conIdx < -1 || l.lastIdx < conIdx < Min(|l.slots|, UINT32_SIZE) ==> term == -1)
      && (0 <= conIdx < |written| && conIdx > l.lastIdx - |l.slots| ==> term == written[conIdx].term)
  {
    if 0 <= conIdx < |written| {
      RemainderAtMost(conIdx, |l.slots|);
    }
  }

  // A message names the term of the entry written before its first one, and carries what was
  // written from there on; before the first entry of all it names the sender's own term.
  lemma SentNamesWrittenTerm(n: Node, lid: nat, nextIndex: int, retrans: bool, maxPerPkt: nat, written: seq<Entry>)
    requires n.Shaped() && lid < n.NumTargets() && Holds(n.log, written)
    ensures var out := SetupAppendMsg(n, lid, nextIndex, retrans, maxPerPkt).out;
      out.Some? ==>
        var b, oldest := out.value, n.log.lastIdx - |n.log.slots|;
        && b.Append? && b.prevLogIdx + |b.entries| < |written|
        && (b.prevLogIdx == -1 ==> b.prevLogTerm == n.term)
        && (b.prevLogIdx >= 0 && b.prevLogIdx > oldest ==> b.prevLogTerm == written[b.prevLogIdx].term)
        && forall k :: 0 <= k < |b.entries| && b.prevLogIdx + 1 + k > oldest ==>
             b.entries[k] == written[b.prevLogIdx + 1 + k].data
  {
    hide SetupAppendMsg, Chunks;
    SentShape(n, lid, nextIndex, retrans, maxPerPkt);
  }

  function PrepareLogReplication(n: Node, w: Work, maxPerPkt: nat): Sent
    requires n.Shaped() && w.lid < n.NumTargets()
  {
    if n.role != Leader || !n.alive[w.lid] then Sent(n, None, false)
    else SetupAppendMsg(n, w.lid, w.nextIndex, w.retrans, maxPerPkt)
  }

  // A poll schedules the oldest request, or next_index if nothing is requested, unless the
  // target is known to hold that index or the log does not reach it.
  lemma WorkIsOffered(n: Node, lid: nat)
    requires n.Shaped() && lid < n.NumTargets() && ListsExact(n)
    ensures var (n', w) := CheckPending(n, lid);
      if n.role != Leader then n' == n && w == None
      else if n.retrans[lid] != [] then
        var idx := n.retrans[lid][0];
        && n.retrans[lid] == [idx] + n'.retrans[lid]
        && n' == n.(retrans := n'.retrans, retransEntries := n'.retransEntries)
        && w == (if idx < 0 || idx == n.matchIndex[lid] then None else Some(Work(lid, idx, true)))
      else
        var idx := n.nextIndex[lid];
        && n' == n
        && w == (if idx < 0 || idx > n.log.lastIdx || idx == n.matchIndex[lid] then None
                 else Some(Work(lid, idx, false)))
  {
    assert ListExact(n.retrans[lid], n.retransEntries[lid]);
  }

  // A work item sends exactly while its node leads, sees the target and holds the index to
  // start from, and only then, and only for next_index, moves next_index past what it sent.
  lemma WorkIsDone(n: Node, w: Work, maxPerPkt: nat)
    requires n.Shaped() && w.lid < n.NumTargets() && maxPerPkt > 0
    requires n.term >= 0 && n.log.lastIdx <= INT32_MAX
    ensures var sent, first := PrepareLogReplication(n, w, maxPerPkt), FirstSent(n, w.lid, w.nextIndex, w.retrans);
      && (sent.out.Some? <==>
           && n.role == Leader && n.alive[w.lid] && 0 <= first <= n.log.lastIdx
           && (first > 0 ==> SlotAt(n.log.slots, first - 1).term >= 0))
      && (sent.out.Some? ==> sent.out.value.Append? && (sent.more <==> maxPerPkt < n.log.lastIdx + 1 - first))
      && sent.node == if sent.out.Some? && !w.retrans
           then n.(nextIndex := n.nextIndex[w.lid := first + |sent.out.value.entries|]) else n
  {
    var first := FirstSent(n, w.lid, w.nextIndex, w.retrans);
    if 0 < first <= n.log.lastIdx {
      RemainderAtMost(first - 1, |n.log.slots|);
    }
  }

  // ---------- chunks tile the backlog ----------

  // The entries a send that starts at index `first` reads a term of: the one before it and
  // all up to the last but one. No other slot matters, least of all one never written.
  ghost predicate TermsFrom(l: RingLog, first: int)
    requires |l.slots| > 0
  {
    forall j :: Max(0, first - 1) <= j < l.lastIdx ==> SlotAt(l.slots, j).term >= 0
  }

  ghost predicate SendsFrom(n: Node, first: int) {
    && n.Shaped() && n.log.lastIdx <= INT32_MAX && n.term >= 0
    && 0 <= first && TermsFrom(n.log, first)
  }

  ghost predicate ReadyToSend(n: Node, lid: nat) {
    n.Shaped() && lid < n.NumTargets() && SendsFrom(n, n.nextIndex[lid])
  }

  // The messages of repeated sends until nothing is left for the target.
  ghost function SendAll(n: Node, lid: nat, maxPerPkt: nat): seq<Body>
    requires ReadyToSend(n, lid) && maxPerPkt > 0
    decreases n.log.lastIdx + 1 - n.nextIndex[lid]
  {
    var s := SetupAppendMsg(n, lid, 0, false, maxPerPkt);
    if s.out.None? then [] else [s.out.value] + SendAll(s.node, lid, maxPerPkt)
  }

  // One send takes the next block of the backlog, moves next_index past it, and says
  // `more` exactly when entries remain.
  lemma SendOne(n: Node, lid: nat, maxPerPkt: nat)
    requires ReadyToSend(n, lid) && maxPerPkt > 0
    ensures var s := SetupAppendMsg(n, lid, 0, false, maxPerPkt);
      var backlog := n.log.lastIdx + 1 - n.nextIndex[lid];
      && (s.out.Some? <==> backlog > 0)
      && (s.out.Some? ==>
           ReadyToSend(s.node, lid)
           && s.node == n.(nextIndex := n.nextIndex[lid := s.node.nextIndex[lid]])
           && s.out.value.Append?
           && s.out.value.prevLogIdx + 1 == n.nextIndex[lid]
           && s.node.nextIndex[lid] == n.nextIndex[lid] + |s.out.value.entries|
           && s.node.nextIndex[lid] <= n.log.lastIdx + 1
           && 0 < |s.out.value.entries| <= maxPerPkt
           && (s.more <==> s.node.nextIndex[lid] <= n.log.lastIdx)
           && s.out.value.entries == Chunks(n.log.slots, n.nextIndex[lid], |s.out.value.entries|))
  {
    var first := n.nextIndex[lid];
    if first <= n.log.lastIdx && first > 0 {
      RemainderAtMost(first - 1, |n.log.slots|);
    }
  }

  // Each message starts where the one before it ended.
  ghost predicate Consecutive(msgs: seq<Body>, first: int, maxPerPkt: nat) {
    msgs != [] ==>
      (msgs[0].Append? && msgs[0].prevLogIdx + 1 == first && 0 < |msgs[0].entries| <= maxPerPkt
       && Consecutive(msgs[1..], first + |msgs[0].entries|, maxPerPkt))
  }

  ghost function AllEntries(msgs: seq<Body>): seq<Chunk> {
    if msgs == [] then []
    else (if msgs[0].Append? then msgs[0].entries else []) + AllEntries(msgs[1..])
  }

  // Repeated sends carry exactly the entries next_index..last_idx, in consecutive blocks.
  lemma {:induction false} ChunksTileBacklog(n: Node, lid: nat, maxPerPkt: nat)
    requires ReadyToSend(n, lid) && maxPerPkt > 0
    ensures Consecutive(SendAll(n, lid, maxPerPkt), n.nextIndex[lid], maxPerPkt)
    ensures AllEntries(SendAll(n, lid, maxPerPkt)) ==
      Chunks(n.log.slots, n.nextIndex[lid], Max(0, n.log.lastIdx + 1 - n.nextIndex[lid]))
    decreases n.log.lastIdx + 1 - n.nextIndex[lid]
  {
    hide SetupAppendMsg;
    SendOne(n, lid, maxPerPkt);
    var s := SetupAppendMsg(n, lid, 0, false, maxPerPkt);
    if s.out.Some? {
      ChunksTileBacklog(s.node, lid, maxPerPkt);
      var rest := SendAll(s.node, lid, maxPerPkt);
      assert ([s.out.value] + rest)[1..] == rest;
      var count := |s.out.value.entries|;
      ChunksJoin(n.log.slots, n.nextIndex[lid], count, n.log.lastIdx + 1 - s.node.nextIndex[lid]);
    }
  }

  lemma ChunksJoin(slots: seq<Slot>, first: int, a: nat, b: nat)
    requires |slots| > 0
    ensures Chunks(slots, first, a) + Chunks(slots, first + a, b) == Chunks(slots, first, a + b)
  {
  }

  // ---------- which index a follower asks for again ----------

  // The loop of update_next_retransmission_request_idx from index i; `missing` is its
  // test for an unallocated slot, and the two results are cur_idx and first_re_idx.
  function RequestScan(i: int, last: int, requested: int, maxPerPkt: nat, missing: int -> bool, first: int, cur: int)
    : (int, int)
    requires maxPerPkt > 0
    decreases last - i
  {
    if i >= last then (cur, first)
    else if requested == i then RequestScan(i + maxPerPkt, last, requested, maxPerPkt, missing, first, cur)
    else if !missing(i) then RequestScan(i + 1, last, requested, maxPerPkt, missing, first, cur)
    else
      var first' := if first == -2 then i else first;
      if requested == -2 || i > requested then (i, first')
      else RequestScan(i + 1, last, requested, maxPerPkt, missing, first', i)
  }

  function NextRetransmission(l: RingLog, requested: int, maxPerPkt: nat, missing: int -> bool): int
    requires maxPerPkt > 0
  {
    if l.lastIdx == -1 then requested
    else
      var (cur, first) := RequestScan(l.stableIdx + 1, l.lastIdx, requested, maxPerPkt, missing, -2, -2);
      if requested < cur then cur else first
  }

  // A missing index of from..last - 1 that the answer to the pending request, if that is
  // for an index of the range, cannot bring.
  ghost predicate Gap(k: int, from: int, last: int, requested: int, maxPerPkt: nat, missing: int -> bool) {
    from <= k < last && missing(k) && !(from <= requested <= k < requested + maxPerPkt)
  }

  // The least gap above an index, and none there.
  ghost predicate LeastGap(g: int, above: int, from: int, last: int, requested: int, maxPerPkt: nat,
                           missing: int -> bool) {
    && Gap(g, from, last, requested, maxPerPkt, missing) && g > above
    && forall k :: Gap(k, from, last, requested, maxPerPkt, missing) && k > above ==> g <= k
  }

  ghost predicate NoGap(above: int, from: int, last: int, requested: int, maxPerPkt: nat, missing: int -> bool) {
    forall k :: Gap(k, from, last, requested, maxPerPkt, missing) ==> k <= above
  }

  lemma {:induction false} ScanFindsGaps(i: int, last: int, requested: int, maxPerPkt: nat, missing: int -> bool,
                                         first: int, cur: int)
    requires i >= 0 && maxPerPkt > 0
    ensures var (c, f) := RequestScan(i, last, requested, maxPerPkt, missing, first, cur);
      && (LeastGap(c, requested, i, last, requested, maxPerPkt, missing)
          || (NoGap(requested, i, last, requested, maxPerPkt, missing)
              && (c == cur || Gap(c, i, last, requested, maxPerPkt, missing))))
      && (if first != -2 then f == first
          else LeastGap(f, i - 1, i, last, requested, maxPerPkt, missing)
               || (NoGap(i - 1, i, last, requested, maxPerPkt, missing) && f == -2))
    decreases last - i
  {
    if i < last {
      var next := if requested == i then i + maxPerPkt else i + 1;
      assert forall k :: Gap(k, i, last, requested, maxPerPkt, missing) <==>
                         (k == i && requested != i && missing(i)) || Gap(k, next, last, requested, maxPerPkt, missing);
      if requested == i {
        ScanFindsGaps(i + maxPerPkt, last, requested, maxPerPkt, missing, first, cur);
      } else {
        var first' := if missing(i) && first == -2 then i else first;
        ScanFindsGaps(i + 1, last, requested, maxPerPkt, missing, first', if missing(i) then i else cur);
      }
    }
  }

  // A follower asks for the least gap behind its pending request; when there is none it
  // starts over with the least gap of all, and it asks for nothing exactly when no index
  // strictly between its stable and its last index is a gap.
  lemma RequestsNextGap(l: RingLog, requested: int, maxPerPkt: nat, missing: int -> bool)
    requires l.stableIdx >= -1 && l.lastIdx != -1 && maxPerPkt > 0
    ensures var r, from, last := NextRetransmission(l, requested, maxPerPkt, missing), l.stableIdx + 1, l.lastIdx;
      || LeastGap(r, requested, from, last, requested, maxPerPkt, missing)
      || (NoGap(requested, from, last, requested, maxPerPkt, missing)
          && LeastGap(r, l.stableIdx, from, last, requested, maxPerPkt, missing))
      || (NoGap(l.stableIdx, from, last, requested, maxPerPkt, missing) && r == NO_RETRANSMISSION)
  {
    ScanFindsGaps(l.stableIdx + 1, l.lastIdx, requested, maxPerPkt, missing, -2, -2);
  }

  ghost predicate FirstGap(k: int, first: int, last: int, missing: int -> bool) {
    first <= k < last && missing(k) && forall j :: first <= j < k ==> !missing(j)
  }

  // A follower that has nothing pending asks for the first missing index strictly between
  // its stable and its last index, and for nothing exactly when none is missing there.
  lemma RequestsFirstGap(l: RingLog, maxPerPkt: nat, missing: int -> bool)
    requires l.stableIdx >= -1 && maxPerPkt > 0
    ensures var r := NextRetransmission(l, NO_RETRANSMISSION, maxPerPkt, missing);
      && (r == NO_RETRANSMISSION <==> forall k :: l.stableIdx < k < l.lastIdx ==> !missing(k))
      && (r != NO_RETRANSMISSION ==> FirstGap(r, l.stableIdx + 1, l.lastIdx, missing))
  {
    if l.lastIdx != -1 {
      RequestsNextGap(l, NO_RETRANSMISSION, maxPerPkt, missing);
      assert forall k :: Gap(k, l.stableIdx + 1, l.lastIdx, NO_RETRANSMISSION, maxPerPkt, missing) <==>
                         (l.stableIdx < k < l.lastIdx && missing(k));
    }
  }

  // The test is for a slot that was never allocated. consensus_init allocates them all, so
  // no follower of this code ever asks, whatever entries its log lacks.
  lemma RetransmissionNeverRequested(l: RingLog, maxPerPkt: nat)
    requires l.stableIdx >= -1 && maxPerPkt > 0
    ensures NextRetransmission(l, NO_RETRANSMISSION, maxPerPkt, _ => false) == NO_RETRANSMISSION
  {
    RequestsFirstGap(l, maxPerPkt, _ => false);
  }
}
