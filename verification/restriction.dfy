/** What a granted vote says about the candidate's log, where that fails, and how a
    repeated vote makes two leaders. */
module Restriction {
  import opened Types
  import opened RingLogs
  import opened Nodes
  import opened Consensus
  import opened Replication
  import opened CandidateRole
  import opened Cluster
  import opened Election
  import opened Safety

  ghost predicate Granted(voter: Node, b: Body, rid: nat)
    requires voter.Shaped() && b.Nomi?
  {
    CheckHandleNomination(voter, b.term, b.lastIdx, b.lastTerm, rid).1
  }

  // A nomination that claims an empty stable log names the candidate's own new term.
  ghost predicate NominationOk(b: Body)
    requires b.Nomi?
  {
    -1 <= b.lastIdx <= INT32_MAX && (b.lastIdx == -1 ==> b.lastTerm == b.term)
  }

  lemma OrderedNominationOk(cand: Node)
    requires cand.Shaped() && CursorsOrdered(cand.log)
    ensures NominationOk(Nomination(cand))
  {
  }

  // A voter with a non-empty log only votes for a candidate whose stable index reaches its
  // own last index, although -1 is compared as the largest unsigned value.
  lemma ElectionRestriction(voter: Node, b: Body, rid: nat)
    requires NodeOk(voter) && 0 <= voter.log.lastIdx <= INT32_MAX
    requires b.Nomi? && NominationOk(b)
    ensures Granted(voter, b, rid) ==> b.lastIdx >= voter.log.lastIdx
  {
    var slot := SlotAt(voter.log.slots, voter.log.lastIdx);
    assert 0 <= slot.term <= voter.term;
  }

  // For any nomination at all, a granted vote means an up-to-date log exactly when the
  // claimed index is not the unset one.
  lemma GrantMeansUpToDate(voter: Node, b: Body, rid: nat)
    requires NodeOk(voter) && 0 <= voter.log.lastIdx <= INT32_MAX
    requires b.Nomi? && -1 <= b.lastIdx <= INT32_MAX && Granted(voter, b, rid)
    ensures b.lastIdx >= voter.log.lastIdx <==> b.lastIdx != -1
  {
  }

  // A former leader has applied entries without a stable index. It nominates itself with
  // index -1 and an old term, and a voter that holds an entry of that term accepts it.
  lemma FormerLeaderSlipsThrough(voter: Node, cand: Node)
    requires NodeOk(voter) && 0 <= voter.log.lastIdx <= INT32_MAX && cand.Shaped()
    requires cand.log.stableIdx == -1 && cand.log.lastApplied >= 0
    requires SlotAt(cand.log.slots, cand.log.lastApplied).term == SlotAt(voter.log.slots, voter.log.lastIdx).term
    requires cand.id < voter.id && voter.term < cand.term && voter.voted != cand.term
    requires !CurrentLeaderPreferred(voter, cand.id)
    ensures Granted(voter, Nomination(cand), cand.id)
    ensures cand.log.stableIdx < voter.log.lastIdx
  {
  }

  // ---------- over runs ----------

  ghost predicate NominationsOk(s: State) {
    forall p :: p in s.net && p.body.Nomi? ==> NominationOk(p.body)
  }

  lemma FollowerOrdered(n: Node, g: seq<Chunk>)
    requires NodeSafe(n, g) && n.role != Leader
    ensures CursorsOrdered(n.log)
  {
    var received :| Stands(n.log, received, g);
    RefinesCursors(n.log, received);
  }

  lemma StandsOrdered(cfg: Config, s: State, i: nat)
    requires SafetyInv(cfg, s) && i < |s.nodes| && s.nodes[i].role != Leader
    ensures NodeOk(s.nodes[i]) && UpdateLeader(s.nodes[i]).0.Shaped()
    ensures NominationOk(Nomination(UpdateLeader(s.nodes[i]).0))
  {
    assert NodeInv(cfg, i, s.nodes[i]) && NodeSafe(s.nodes[i], s.clientLog);
    HeartbeatStep(s.nodes[i]);
    FollowerOrdered(s.nodes[i], s.clientLog);
    hide UpdateLeader, SafetyInv;
    OrderedNominationOk(UpdateLeader(s.nodes[i]).0);
  }

  lemma StepNominations(cfg: Config, s: State, step: Step)
    requires SafetyInv(cfg, s) && NominationsOk(s) && Enabled(cfg, s, step)
    ensures NominationsOk(Apply(cfg, s, step))
  {
    hide SafetyInv, ElectionInv, NodeOk, NominationOk, Process, UpdateLeader, PrepareLogReplication, CheckPending;
    SafeFacts(cfg, s);
    match step
    case Deliver(p, retransIdx, accepts) => ProcessReplies(cfg, s, p, retransIdx, accepts);
    case Heartbeat(i) =>
      StandsOrdered(cfg, s, i);
      HeartbeatStep(s.nodes[i]);
    case DoWork(i, w) =>
      NodeFacts(cfg, s, i);
      WorkStep(s.nodes[i], w, cfg.maxPerPkt);
    case _ =>
  }

  lemma {:induction false} RunNominations(cfg: Config, run: seq<State>, t: nat)
    requires IsRun(cfg, run) && NeverTwoLead(run) && t < |run|
    ensures NominationsOk(run[t])
  {
    if t == 0 {
      assert run[0].net == {};
    } else {
      hide *;
      RunNominations(cfg, run, t - 1);
      RunSafe(cfg, run, t - 1);
      var step := StepAt(cfg, run, t);
      StepNominations(cfg, run[t - 1], step);
    }
  }

  // In every run in which two nodes never lead at once, whichever nomination reaches whichever node: the
  // vote is refused unless the candidate's stable index reaches that node's last index.
  lemma RestrictionOverRuns(cfg: Config, run: seq<State>, t: nat, p: Packet)
    requires IsRun(cfg, run) && NeverTwoLead(run) && t < |run|
    requires p in run[t].net && p.body.Nomi? && p.dst < |run[t].nodes|
    requires run[t].nodes[p.dst].log.lastIdx >= 0
    ensures p.src < |cfg.ids| && run[t].nodes[p.dst].Shaped()
    ensures Granted(run[t].nodes[p.dst], p.body, cfg.ids[p.src]) ==>
      p.body.lastIdx >= run[t].nodes[p.dst].log.lastIdx
  {
    RunSafe(cfg, run, t);
    RunNominations(cfg, run, t);
    var n := run[t].nodes[p.dst];
    assert PacketInv(cfg, p);
    assert NodeInv(cfg, p.dst, n) && NodeSafe(n, run[t].clientLog);
    if n.role != Leader {
      FollowerOrdered(n, run[t].clientLog);
    }
    ElectionRestriction(n, p.body, cfg.ids[p.src]);
  }
}
