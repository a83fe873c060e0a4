/** leader.c: the commit rule and the packets a leader reacts to. */
module LeaderRole {
  import opened Types
  import opened RingLogs
  import opened Nodes
  import opened Consensus
  import opened Replication

  // ---------- the commit rule ----------

  // Targets among the first i that is_potential_commit_idx counts for N.
  function Hits(n: Node, N: int, i: nat): nat
    requires n.Shaped() && i <= n.NumTargets()
  {
    if i == 0 then 0
    else Hits(n, N, i - 1) + (if !n.alive[i - 1] || n.matchIndex[i - 1] >= N then 1 else 0)
  }

  predicate IsPotentialCommitIdx(n: Node, N: int)
    requires n.Shaped()
  {
    Hits(n, N, n.NumTargets()) >= n.NumTargets()
  }

  predicate HasCurrentTerm(n: Node, N: int)
    requires n.Shaped()
  {
    SlotAt(n.log.slots, N).term == n.term
  }

  // The first loop of update_commit_idx from target i; None is its early return.
  function BestMatch(n: Node, i: nat, best: int): Option<int>
    requires n.Shaped() && i <= n.NumTargets()
    decreases n.NumTargets() - i
  {
    if i == n.NumTargets() then Some(best)
    else
      var N := n.matchIndex[i];
      if N == -1 || N > n.log.lastIdx then None
      else BestMatch(n, i + 1,
                     if HasCurrentTerm(n, N) && IsPotentialCommitIdx(n, N) && N > best then N else best)
  }

  // The second loop: slots lo..hi-1 may be overwritten again.
  function Invalidate(slots: seq<Slot>, lo: int, hi: int): (s: seq<Slot>)
    requires |slots| > 0
    ensures |s| == |slots|
    decreases hi - lo
  {
    if lo >= hi then slots
    else
      var b := BufferIdx(|slots|, lo);
      Invalidate(slots[b := slots[b].(valid := false)], lo + 1, hi)
  }

  function UpdateCommitIdx(n: Node): Node
    requires n.Shaped()
  {
    var best := BestMatch(n, 0, -1);
    if best.None? || n.log.commitIdx >= best.value then n
    else
      var N := best.value;
      var slots := if N == n.log.lastIdx then n.log.slots else Invalidate(n.log.slots, n.log.commitIdx, N);
      n.(log := n.log.(commitIdx := N, lastApplied := N, slots := slots))
  }

  // Exactly the slots of indices lo..hi - 1 have lost their valid flag.
  ghost predicate Invalidated(slots: seq<Slot>, slots': seq<Slot>, lo: int, hi: int) {
    && OnlyInvalidated(slots, slots')
    && forall k :: 0 <= k < |slots| ==>
         (slots'[k].valid <==> slots[k].valid && forall j :: lo <= j < hi ==> BufferIdx(|slots|, j) != k)
  }

  lemma {:induction false} InvalidateIsExact(slots: seq<Slot>, lo: int, hi: int)
    requires |slots| > 0
    ensures Invalidated(slots, Invalidate(slots, lo, hi), lo, hi)
    decreases hi - lo
  {
    if lo < hi {
      var b := BufferIdx(|slots|, lo);
      var slots1 := slots[b := slots[b].(valid := false)];
      InvalidateIsExact(slots1, lo + 1, hi);
      hide BufferIdx;
    }
  }

  lemma {:induction false} AllHit(n: Node, N: int, i: nat)
    requires n.Shaped() && i <= n.NumTargets()
    ensures Hits(n, N, i) <= i
    ensures Hits(n, N, i) == i <==> forall k :: 0 <= k < i ==> !n.alive[k] || n.matchIndex[k] >= N
  {
    if i > 0 {
      AllHit(n, N, i - 1);
    }
  }

  // A match value may become the commit index: its entry has the current term and no
  // alive target is behind it.
  ghost predicate Qualifies(n: Node, N: int)
    requires n.Shaped()
  {
    HasCurrentTerm(n, N) && forall k :: 0 <= k < n.NumTargets() && n.alive[k] ==> n.matchIndex[k] >= N
  }

  ghost predicate MatchesUsable(n: Node)
    requires n.Shaped()
  {
    forall k :: 0 <= k < n.NumTargets() ==> n.matchIndex[k] != -1 && n.matchIndex[k] <= n.log.lastIdx
  }

  ghost predicate IsBest(n: Node, from: nat, best: int, r: int)
    requires n.Shaped()
  {
    && best <= r
    && (r == best || exists k :: from <= k < n.NumTargets() && n.matchIndex[k] == r && Qualifies(n, r))
    && (forall k :: from <= k < n.NumTargets() && Qualifies(n, n.matchIndex[k]) ==> n.matchIndex[k] <= r)
  }

  lemma {:induction false} BestMatchIsBest(n: Node, i: nat, best: int)
    requires n.Shaped() && i <= n.NumTargets()
    ensures BestMatch(n, i, best).Some? <==>
      forall k :: i <= k < n.NumTargets() ==> n.matchIndex[k] != -1 && n.matchIndex[k] <= n.log.lastIdx
    ensures BestMatch(n, i, best).Some? ==> IsBest(n, i, best, BestMatch(n, i, best).value)
    decreases n.NumTargets() - i
  {
    if i < n.NumTargets() {
      var N := n.matchIndex[i];
      if N != -1 && N <= n.log.lastIdx {
        AllHit(n, N, n.NumTargets());
        assert IsPotentialCommitIdx(n, N) && HasCurrentTerm(n, N) <==> Qualifies(n, N);
        var best' := if HasCurrentTerm(n, N) && IsPotentialCommitIdx(n, N) && N > best then N else best;
        BestMatchIsBest(n, i + 1, best');
      }
    }
  }

  // The commit index the rule should end at: the old one unless some qualifying match
  // value is greater, and then the greatest of those.
  ghost predicate CommitRuleResult(n: Node, commitIdx: int)
    requires n.Shaped()
  {
    && commitIdx >= n.log.commitIdx
    && (commitIdx == n.log.commitIdx ||
        (commitIdx >= 0 &&
         exists k :: 0 <= k < n.NumTargets() && n.matchIndex[k] == commitIdx && Qualifies(n, commitIdx)))
    && (forall k :: 0 <= k < n.NumTargets() && Qualifies(n, n.matchIndex[k]) && n.matchIndex[k] >= 0 ==>
         n.matchIndex[k] <= commitIdx)
  }

  // The nested loops of update_commit_idx compute exactly that, and nothing at all while
  // a match index is unset or beyond the log.
  lemma CommitRuleClosedForm(n: Node)
    requires n.Shaped() && n.log.commitIdx >= -1
    ensures MatchesUsable(n) ==> CommitRuleResult(n, UpdateCommitIdx(n).log.commitIdx)
    ensures !MatchesUsable(n) ==> UpdateCommitIdx(n) == n
    ensures UpdateCommitIdx(n).log.commitIdx == n.log.commitIdx ==> UpdateCommitIdx(n) == n
    ensures var c := UpdateCommitIdx(n).log.commitIdx;
      c != n.log.commitIdx ==>
        && UpdateCommitIdx(n).log.lastApplied == c
        && Invalidated(n.log.slots, UpdateCommitIdx(n).log.slots,
                       n.log.commitIdx, if c == n.log.lastIdx then n.log.commitIdx else c)
  {
    BestMatchIsBest(n, 0, -1);
    var best := BestMatch(n, 0, -1);
    if best.Some? {
      InvalidateIsExact(n.log.slots, n.log.commitIdx, best.value);
    }
    hide BestMatch, Invalidate, Qualifies;
  }

  lemma CommitRuleResultUnique(n: Node, c: int, c': int)
    requires n.Shaped() && n.log.commitIdx >= -1
    requires CommitRuleResult(n, c) && CommitRuleResult(n, c')
    ensures c == c'
  {
  }

  // With every target alive only the least match index can qualify, so a leader commits
  // nothing that some target has not acknowledged.
  lemma OnlyMinimumQualifies(n: Node, i: nat)
    requires n.Shaped() && i < n.NumTargets()
    requires forall k :: 0 <= k < n.NumTargets() ==> n.alive[k]
    requires Qualifies(n, n.matchIndex[i])
    ensures forall k :: 0 <= k < n.NumTargets() ==> n.matchIndex[i] <= n.matchIndex[k]
  {
  }

  // ---------- packets ----------

  function OnAppendReply(n: Node, lid: nat, b: Body): Node
    requires n.Shaped() && lid < n.NumTargets() && b.AppendReply?
  {
    if b.success == 1 then
      if n.log.lastIdx < b.stableIdx then n
      else UpdateCommitIdx(n.(matchIndex := n.matchIndex[lid := b.stableIdx]))
    else if b.success == 2 then
      if n.log.lastIdx < b.stableIdx || n.log.lastIdx < b.loggedIdx then n
      else QueueRetransmission(n, lid, b.loggedIdx)
    else if b.success == 0 then
      if n.log.lastIdx < b.loggedIdx then n
      else n.(nextIndex := n.nextIndex[lid := b.loggedIdx + 1])
    else n
  }

  function LeaderProcessPkt(n: Node, lid: nat, rid: nat, b: Body): Node
    requires n.Shaped() && lid < n.NumTargets()
  {
    match b
    case AppendReply(_, _, _, _) => OnAppendReply(n, lid, b)
    case Alive(term, _, _, _) => if term > n.term then AcceptLeader(n, lid, rid, term) else n
    case Nomi(_, _, _, _) => n
    case Vote(_, _) => n
    case Append(_, _, _, _, _, _, _) => n
  }
}
