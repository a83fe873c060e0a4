/** That replication goes on: which APPENDs of a run a follower takes, with what term the
    leader names the entry before them, and what alone makes a follower refuse one. */
module Acceptance {
  import opened Types
  import opened RingLogs
  import opened Nodes
  import opened Consensus
  import opened Replication
  import opened CandidateRole
  import opened FollowerRole
  import opened LeaderRole
  import opened Cluster
  import opened Handshake
  import opened Election
  import opened Safety
  import opened Backlog

  // ---------- the term an APPEND names ----------

  lemma StepKeepsLeader(cfg: Config, s: State, step: Step, i: nat)
    requires BacklogInv(cfg, s) && Enabled(cfg, s, step) && AtMostOneLeads(Apply(cfg, s, step)) && Leads(s, i)
    ensures Leads(Apply(cfg, s, step), i) && Apply(cfg, s, step).nodes[i].term == s.nodes[i].term
  {
    hide BacklogInv, SafetyInv, ElectionInv, NodeSafe, NodeSupplied, Process, UpdateLeader, CheckPending;
    hide PrepareLogReplication;
    BacklogFacts(cfg, s, i);
    match step
    case Deliver(p, retransIdx, accepts) =>
      if p.dst == i {
        ProcessSafe(cfg, s, p, retransIdx, accepts);
        ReceiverIsSupplied(cfg, s, p, retransIdx, accepts);
      }
    case Poll(k, lid) => if k == i { PollStep(s.nodes[i], lid); }
    case DoWork(k, w) => if k == i { WorkStep(s.nodes[i], w, cfg.maxPerPkt); }
    case Heartbeat(_) =>
    case SendAlive(_, _) =>
    case SetAlive(_, _, _) =>
    case ClientAppend(_, _) =>
  }

  // Whoever leads while two nodes never do leads on, in the same term.
  lemma {:induction false} LeaderStays(cfg: Config, run: seq<State>, t: nat, u: nat, i: nat)
    requires IsRun(cfg, run) && NeverTwoLead(run) && t <= u < |run| && Leads(run[t], i)
    ensures Leads(run[u], i) && run[u].nodes[i].term == run[t].nodes[i].term
    decreases u
  {
    hide IsRun, BacklogInv, Apply, Enabled;
    if t < u {
      LeaderStays(cfg, run, t, u - 1, i);
      RunBacklog(cfg, run, u - 1);
      var step := StepAt(cfg, run, u);
      StepKeepsLeader(cfg, run[u - 1], step, i);
    }
  }

  // An APPEND in flight names, for the index before its entries, the term that its sender, at
  // any moment it held that index, had written it with next to the client's command; before
  // the first entry of all it names its own term.
  lemma AppendNamesWrittenTerm(cfg: Config, run: seq<State>, t: nat, p: Packet, u: nat)
    requires IsRun(cfg, run) && NeverTwoLead(run) && t < |run| && u < |run| && p in run[t].net && p.body.Append?
    requires p.body.prevLogIdx < |run[u].clientLog| <= p.body.prevLogIdx + cfg.maxEntries
    ensures p.body.prevLogIdx == -1 ==> p.body.prevLogTerm == p.body.term
    ensures p.body.prevLogIdx >= 0 ==>
      && Leads(run[u], p.src) && |run[u].nodes[p.src].log.slots| > 0
      && var slot := SlotAt(run[u].nodes[p.src].log.slots, p.body.prevLogIdx);
         slot.term == p.body.prevLogTerm && slot.data == run[u].clientLog[p.body.prevLogIdx]
  {
    hide IsRun, BacklogInv, SafetyInv, ElectionInv;
    RunBacklog(cfg, run, t);
    RunBacklog(cfg, run, u);
    InFlightFacts(cfg, run[t], p);
    var src, prev := p.src, p.body.prevLogIdx;
    if prev >= 0 {
      var i := SomeoneLeads(cfg, run[u]);
      if t <= u {
        LeaderStays(cfg, run, t, u, src);
        OneLeader(run[u], i, src);
      } else {
        LeaderStays(cfg, run, u, t, i);
        OneLeader(run[t], i, src);
      }
      BacklogFacts(cfg, run[u], src);
      BacklogFacts(cfg, run[t], src);
    }
  }

  lemma SomeoneLeads(cfg: Config, s: State) returns (i: nat)
    requires BacklogInv(cfg, s) && s.clientLog != []
    ensures Leads(s, i) && AtMostOneLeads(s)
  {
    var j :| Leads(s, j);
    i := j;
  }

  // ---------- an APPEND that arrives ----------

  ghost predicate Arrives(cfg: Config, s: State, p: Packet) {
    && p in s.net && p.body.Append? && p.src < |cfg.ids| && p.dst < |s.nodes| && p.src != p.dst
    && s.nodes[p.dst].Shaped() && LidOf(p.dst, p.src) < s.nodes[p.dst].NumTargets()
    && Heard(s.nodes[p.dst], cfg.ids[p.src], p.body) && p.body.prevLogIdx >= s.nodes[p.dst].log.stableIdx
  }

  // Whatever a run has come to, a node that listens to its leader takes all entries of an
  // APPEND that is not old if its last stable entry is of the leader's term, and then
  // acknowledges them, all stable if they follow on; it refuses the APPEND otherwise.
  lemma AppendIsTakenIff(cfg: Config, run: seq<State>, t: nat, p: Packet, retransIdx: int, accepts: nat)
    returns (received: map<int, Entry>, received': map<int, Entry>)
    requires IsRun(cfg, run) && NeverTwoLead(run) && t < |run| && Arrives(cfg, run[t], p)
    ensures var n := run[t].nodes[p.dst];
      var (n', out) := Process(n, LidOf(p.dst, p.src), cfg.ids[p.src], p.body, retransIdx, accepts);
      && Stands(n.log, received, run[t].clientLog) && Stands(n'.log, received', run[t].clientLog)
      && n'.term == FiledUnder(n, p.body)
      && (if FollowsOn(n.log, received, p.body.term) then
            && Adds(received, received', p.body.entries, n'.term, p.body.prevLogIdx + 1)
            && (p.body.prevLogIdx == n.log.stableIdx ==> n'.log.stableIdx >= p.body.prevLogIdx + |p.body.entries|)
            && out == Acknowledged(n'.term, retransIdx, n'.log.stableIdx)
          else received' == received && out == Refused(n'.term, n.log.stableIdx))
  {
    hide IsRun, BacklogInv, SafetyInv, ElectionInv, NodeInv, Process, Refines, StableExact, AgreesWith, Adds;
    RunBacklog(cfg, run, t);
    var s, n, g := run[t], run[t].nodes[p.dst], run[t].clientLog;
    BacklogFacts(cfg, s, p.dst);
    InFlightFacts(cfg, s, p);
    ClientLogFits(cfg, s);
    received :| Stands(n.log, received, g);
    RefinesCursors(n.log, received);
    received' := AppendIsAnswered(n, received, LidOf(p.dst, p.src), cfg.ids[p.src], p.body, retransIdx, accepts);
    if Acceptable(n.log, received, p.body) {
      AddedAgrees(received, received', p.body, FiledUnder(n, p.body), n.log.lastApplied, g);
    }
  }

  lemma ClientLogFits(cfg: Config, s: State)
    requires SafetyInv(cfg, s)
    ensures |s.clientLog| - 1 <= INT32_MAX
  {
  }

  lemma AddedAgrees(received: map<int, Entry>, received': map<int, Entry>, b: Body, term: int, applied: int,
                    g: seq<Chunk>)
    requires b.Append? && AppendSafe(b, applied, g) && AgreesWith(received, g) && b.prevLogIdx >= applied
    requires Adds(received, received', b.entries, term, b.prevLogIdx + 1)
    ensures AgreesWith(received', g)
  {
  }

  // ---------- what makes a follower refuse ----------

  // Every entry still valid in the ring, and the last stable one, is of the term.
  ghost predicate TakenIn(l: RingLog, term: int)
    requires |l.slots| > 0
  {
    && (forall j :: 0 <= j <= INT32_MAX && SlotAt(l.slots, j).valid ==> SlotAt(l.slots, j).term == term)
    && (l.stableIdx >= 0 ==> SlotAt(l.slots, l.stableIdx).term == term)
  }

  lemma {:induction false} AppendAllTaken(l: RingLog, entries: seq<Chunk>, term: int, start: int)
    requires |l.slots| > 0 && TakenIn(l, term)
    ensures var r := AppendAll(l, entries, term, start);
      r.Some? ==> TakenIn(r.value, term) && r.value.lastIdx <= Max(l.lastIdx, start + |entries| - 1)
    decreases |entries|
  {
    if entries != [] {
      var r := AppendCommand(l, entries[0], term, start);
      hide BufferIdx;
      if r.Some? {
        assert forall j :: SlotAt(r.value.slots, j) == SlotAt(l.slots, j)
                           || SlotAt(r.value.slots, j) == Slot(true, term, entries[0]);
        AppendAllTaken(r.value, entries[1..], term, start + 1);
      }
    }
  }

  lemma {:induction false} ScanEndsValid(slots: seq<Slot>, stable: int, last: int)
    requires |slots| > 0
    ensures var s := StableScan(slots, stable, last);
      s == stable || (stable < s <= last && SlotAt(slots, s).valid)
    decreases last - stable
  {
    if stable + 1 <= last && SlotAt(slots, stable + 1).valid {
      ScanEndsValid(slots, stable + 1, last);
    }
  }

  lemma HandleAppendTaken(n: Node, b: Body, rid: nat, retransIdx: int)
    requires n.Shaped() && b.Append? && TakenIn(n.log, n.term)
    requires n.log.lastIdx <= INT32_MAX && b.prevLogIdx + |b.entries| <= INT32_MAX
    ensures TakenIn(HandleAppendRpc(n, b, rid, retransIdx).0.log, n.term)
  {
    AppendAllTaken(n.log, b.entries, n.term, b.prevLogIdx + 1);
    var r := AppendAll(n.log, b.entries, n.term, b.prevLogIdx + 1);
    if r.Some? {
      ScanEndsValid(r.value.slots, r.value.stableIdx, r.value.lastIdx);
    }
    hide AppendAll, StableScan, SlotAt, PrevLogMatches;
  }

  lemma CommitTaken(l: RingLog, commitIdx: int, accepts: nat, term: int)
    requires |l.slots| > 0 && TakenIn(l, term)
    ensures |CommitLog(l, commitIdx, accepts).slots| > 0 && TakenIn(CommitLog(l, commitIdx, accepts), term)
  {
    CommitKeepsEnds(l, commitIdx, accepts);
    var l' := CommitLog(l, commitIdx, accepts);
    hide CommitLog, BufferIdx;
    assert forall j :: SlotAt(l'.slots, j) == SlotAt(l.slots, j)
                       || SlotAt(l'.slots, j) == SlotAt(l.slots, j).(valid := false);
  }

  // A candidate of an earlier term files what it takes under its own term.
  ghost predicate Misfiles(n: Node, n': Node, term: int) {
    n.role == Candidate && n.term < term && n'.log != n.log
  }

  lemma ReceiverTakes(n: Node, lid: nat, rid: nat, b: Body, retransIdx: int, accepts: nat, term: int)
    requires n.Shaped() && lid < n.NumTargets() && n.role != Leader && TakenIn(n.log, term)
    requires b.Append? ==> b.term == term && b.prevLogIdx + |b.entries| <= INT32_MAX && n.log.lastIdx <= INT32_MAX
    requires Process(n, lid, rid, b, retransIdx, accepts).0.role != Leader
    ensures var n' := Process(n, lid, rid, b, retransIdx, accepts).0;
      Misfiles(n, n', term) || (|n'.log.slots| > 0 && TakenIn(n'.log, term))
  {
    hide HandleAppendRpc, CommitLog, TakenIn;
    match b
    case Alive(aliveTerm, commitIdx, _, _) => CommitTaken(n.log, commitIdx, accepts, term);
    case Append(_, _, _, _, commitIdx, _, _) =>
      var n1 := if n.role == Follower && term > n.term then AcceptLeader(n, lid, rid, term) else n;
      if n1.term == term {
        HandleAppendTaken(n1, b, rid, retransIdx);
        HandleAppendShaped(n1, b, rid, retransIdx);
        CommitTaken(HandleAppendRpc(n1, b, rid, retransIdx).0.log, commitIdx, accepts, term);
      }
    case Nomi(_, _, _, _) =>
    case Vote(_, _) =>
    case AppendReply(_, _, _, _) =>
  }

  lemma StepTakes(cfg: Config, s: State, step: Step, i: nat, f: nat)
    requires BacklogInv(cfg, s) && Enabled(cfg, s, step) && AtMostOneLeads(Apply(cfg, s, step))
    requires Leads(s, i) && f < |s.nodes| && f != i
    requires s.nodes[f].Shaped() && TakenIn(s.nodes[f].log, s.nodes[i].term)
    ensures f < |Apply(cfg, s, step).nodes|
    ensures var n' := Apply(cfg, s, step).nodes[f];
      Misfiles(s.nodes[f], n', s.nodes[i].term) || (|n'.log.slots| > 0 && TakenIn(n'.log, s.nodes[i].term))
  {
    hide BacklogInv, SafetyInv, ElectionInv, NodeOk, Process, UpdateLeader, CheckPending, PrepareLogReplication;
    hide TakenIn;
    BacklogFacts(cfg, s, f);
    NodeFacts(cfg, s, f);
    if Leads(s, f) {
      OneLeader(s, i, f);
    }
    match step
    case Deliver(p, retransIdx, accepts) =>
      if p.dst == f {
        DeliveryTakes(cfg, s, p, retransIdx, accepts, i);
      }
    case Heartbeat(k) => if k == f { HeartbeatStep(s.nodes[f]); }
    case Poll(k, lid) => if k == f { PollStep(s.nodes[f], lid); }
    case DoWork(k, w) => if k == f { WorkStep(s.nodes[f], w, cfg.maxPerPkt); }
    case SendAlive(_, _) =>
    case SetAlive(_, _, _) =>
    case ClientAppend(_, _) =>
  }

  lemma DeliveryTakes(cfg: Config, s: State, p: Packet, retransIdx: int, accepts: nat, i: nat)
    requires BacklogInv(cfg, s) && Enabled(cfg, s, Deliver(p, retransIdx, accepts))
    requires AtMostOneLeads(OnDeliver(cfg, s, p, retransIdx, accepts))
    requires Leads(s, i) && p.dst != i && s.nodes[p.dst].Shaped() && TakenIn(s.nodes[p.dst].log, s.nodes[i].term)
    ensures var n' := OnDeliver(cfg, s, p, retransIdx, accepts).nodes[p.dst];
      Misfiles(s.nodes[p.dst], n', s.nodes[i].term) || (|n'.log.slots| > 0 && TakenIn(n'.log, s.nodes[i].term))
  {
    hide BacklogInv, SafetyInv, ElectionInv, NodeSupplied, Process, TakenIn, LeaderLog;
    BacklogFacts(cfg, s, i);
    BacklogFacts(cfg, s, p.dst);
    var n, s' := s.nodes[p.dst], OnDeliver(cfg, s, p, retransIdx, accepts);
    InFlightFacts(cfg, s, p);
    ClientLogFits(cfg, s);
    if Leads(s, p.dst) {
      OneLeader(s, i, p.dst);
    }
    assert Leads(s', i);
    if Leads(s', p.dst) {
      OneLeader(s', i, p.dst);
    }
    if p.body.Append? {
      OneLeader(s, i, p.src);
      FollowerLast(n.log, s.clientLog);
    }
    ReceiverTakes(n, LidOf(p.dst, p.src), cfg.ids[p.src], p.body, retransIdx, accepts, s.nodes[i].term);
  }

  lemma FollowerLast(l: RingLog, g: seq<Chunk>)
    requires FollowerLog(l, g)
    ensures l.lastIdx <= INT32_MAX
  {
    var received :| Stands(l, received, g);
    RefinesCursors(l, received);
  }

  // Nothing was taken before the first command was written.
  lemma NothingTaken(l: RingLog, term: int)
    requires FollowerLog(l, [])
    ensures |l.slots| > 0 && TakenIn(l, term)
  {
    var received :| Stands(l, received, []);
    RefinesCursors(l, received);
    assert l.lastIdx >= 0 ==> l.lastIdx in received;
    forall j | 0 <= j <= INT32_MAX
      ensures !SlotAt(l.slots, j).valid
    {
      var k := BufferIdx(|l.slots|, j);
      RemainderAtMost(j, |l.slots|);
      assert BufferIdx(|l.slots|, k) == k && InWindow(l.lastApplied, |l.slots|, k);
    }
  }

  // At the moment u node f, as a candidate of a term before the leader's, took entries.
  ghost predicate Misfiled(run: seq<State>, u: nat, f: nat, term: int) {
    && 0 < u < |run| && f < |run[u - 1].nodes| && f < |run[u].nodes|
    && Misfiles(run[u - 1].nodes[f], run[u].nodes[f], term)
  }

  lemma {:induction false} TermsAreTraced(cfg: Config, run: seq<State>, t: nat, i: nat, f: nat) returns (u: nat)
    requires IsRun(cfg, run) && NeverTwoLead(run) && t < |run| && Leads(run[t], i)
    requires f < |run[t].nodes| && f != i
    ensures |run[t].nodes[f].log.slots| > 0
    ensures TakenIn(run[t].nodes[f].log, run[t].nodes[i].term)
      || (u <= t && Misfiled(run, u, f, run[t].nodes[i].term))
    decreases t
  {
    hide BacklogInv, SafetyInv, ElectionInv, Apply, Enabled, Next, TakenIn, Misfiles, FollowerLog, LeaderLog;
    u := 0;
    RunBacklog(cfg, run, t);
    BacklogFacts(cfg, run[t], f);
    if t == 0 {
      assert false;
    }
    RunBacklog(cfg, run, t - 1);
    RunSafe(cfg, run, t - 1);
    SafeFacts(cfg, run[t - 1]);
    BacklogFacts(cfg, run[t - 1], f);
    var step := StepAt(cfg, run, t);
    if Leads(run[t - 1], i) {
      StepKeepsLeader(cfg, run[t - 1], step, i);
      u := TermsAreTraced(cfg, run, t - 1, i, f);
      if TakenIn(run[t - 1].nodes[f].log, run[t].nodes[i].term) {
        StepTakes(cfg, run[t - 1], step, i, f);
        u := t;
      }
    } else {
      NewLeaderHasNothing(cfg, run[t - 1], step, i);
      if Leads(run[t], f) {
        OneLeader(run[t], i, f);
      }
      NothingTaken(run[t].nodes[f].log, run[t].nodes[i].term);
    }
  }

  // So a follower refuses its leader's APPEND only if it took entries earlier as a candidate
  // of an earlier term: it files them under its own term, which the leader never names.
  lemma RefusalMeansMisfiled(cfg: Config, run: seq<State>, t: nat, p: Packet, retransIdx: int, accepts: nat)
    returns (u: nat)
    requires IsRun(cfg, run) && NeverTwoLead(run) && t < |run| && Arrives(cfg, run[t], p)
    requires var n := run[t].nodes[p.dst];
      var out := Process(n, LidOf(p.dst, p.src), cfg.ids[p.src], p.body, retransIdx, accepts).1;
      out.Reply? && out.body.AppendReply? && out.body.success == 0
    ensures u <= t && Misfiled(run, u, p.dst, p.body.term)
  {
    hide IsRun, BacklogInv, SafetyInv, ElectionInv, Process, Adds, StableExact, AgreesWith, Misfiled;
    RunBacklog(cfg, run, t);
    InFlightFacts(cfg, run[t], p);
    var received, received' := AppendIsTakenIff(cfg, run, t, p, retransIdx, accepts);
    u := TermsAreTraced(cfg, run, t, p.src, p.dst);
    var l := run[t].nodes[p.dst].log;
    RefinesCursors(l, received);
    if l.stableIdx >= 0 {
      StableTermRead(l, received);
    }
  }
}
