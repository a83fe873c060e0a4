/** The replicated log of kvstore.c as a value: a ring of slots under four cursors, what
    each operation makes of it, and the unbounded log it stands for. */
module RingLogs {
  import opened Types

  // struct sm_log_entry; every slot is allocated once, by consensus_init.
  datatype Slot = Slot(valid: bool, term: int, data: Chunk)

  // What a received index holds in the unbounded log.
  datatype Entry = Entry(term: int, data: Chunk)

  // struct state_machine_cmd_log; rx is everything append_rb has accepted so far.
  datatype RingLog = RingLog(
    slots: seq<Slot>,
    lastApplied: int,
    commitIdx: int,
    stableIdx: int,
    lastIdx: int,
    rx: seq<Chunk>)

  function BufferIdx(maxEntries: nat, idx: int): (b: nat)
    requires maxEntries > 0
    ensures b < maxEntries
  {
    Remainder(ToU32(idx), maxEntries)
  }

  function SlotAt(slots: seq<Slot>, idx: int): Slot
    requires |slots| > 0
  {
    slots[BufferIdx(|slots|, idx)]
  }

  // ---------- operations on values ----------

  function AppendCommand(l: RingLog, data: Chunk, term: int, idx: int): Option<RingLog>
    requires |l.slots| > 0
  {
    if l.commitIdx > idx then None
    else Some(l.(slots := l.slots[BufferIdx(|l.slots|, idx) := Slot(true, term, data)],
                 lastIdx := Max(l.lastIdx, idx)))
  }

  // Where the scan of update_stable_idx stops when it starts behind `stable`.
  function StableScan(slots: seq<Slot>, stable: int, last: int): int
    requires |slots| > 0
    decreases last - stable
  {
    if stable + 1 <= last && SlotAt(slots, stable + 1).valid
    then StableScan(slots, stable + 1, last)
    else stable
  }

  function UpdateStableIdx(l: RingLog): RingLog
    requires |l.slots| > 0
  {
    l.(stableIdx := StableScan(l.slots, l.stableIdx, l.lastIdx))
  }

  function ApplyOne(l: RingLog): RingLog
    requires |l.slots| > 0
  {
    var b := BufferIdx(|l.slots|, l.lastApplied + 1);
    l.(slots := l.slots[b := l.slots[b].(valid := false)],
       lastApplied := l.lastApplied + 1,
       rx := l.rx + [l.slots[b].data])
  }

  // apply_log_to_sm with a sink that takes `accepts` more entries and then rejects.
  function ApplyLog(l: RingLog, accepts: nat): RingLog
    requires |l.slots| > 0
    decreases accepts
  {
    if l.lastApplied < l.commitIdx && accepts > 0 then ApplyLog(ApplyOne(l), accepts - 1) else l
  }

  function CommitLog(l: RingLog, commitIdx: int, accepts: nat): RingLog
    requires |l.slots| > 0
  {
    if commitIdx > l.commitIdx && commitIdx <= l.stableIdx
    then ApplyLog(l.(commitIdx := commitIdx), accepts)
    else l
  }

  // ---------- the unbounded log ----------

  ghost predicate InWindow(base: int, width: nat, j: int) {
    base < j <= base + width && 0 <= j <= INT32_MAX
  }

  ghost predicate CursorsOrdered(l: RingLog) {
    -1 <= l.lastApplied <= l.commitIdx <= l.stableIdx <= l.lastIdx <= l.lastApplied + |l.slots|
    && l.lastIdx <= INT32_MAX
  }

  // The slot of the last applied entry keeps its term until the next lap's entry arrives.
  ghost predicate AppliedTermKept(l: RingLog, received: map<int, Entry>)
    requires |l.slots| > 0
  {
    l.lastApplied >= 0 && l.lastApplied + |l.slots| !in received ==>
      l.lastApplied in received && SlotAt(l.slots, l.lastApplied).term == received[l.lastApplied].term
  }

  // The ring stands for the map `received` of every entry ever written.
  ghost predicate Refines(l: RingLog, received: map<int, Entry>) {
    && |l.slots| > 0
    && CursorsOrdered(l)
    && (forall j :: InWindow(l.lastApplied, |l.slots|, j) ==>
         (SlotAt(l.slots, j).valid <==> j in received))
    && (forall j :: InWindow(l.lastApplied, |l.slots|, j) && j in received ==>
         SlotAt(l.slots, j).term == received[j].term && SlotAt(l.slots, j).data == received[j].data)
    && (forall j :: j in received ==> 0 <= j <= l.lastIdx)
    && (forall j :: 0 <= j <= l.stableIdx ==> j in received)
    && (l.lastIdx >= 0 ==> l.lastIdx in received)
    && AppliedTermKept(l, received)
    && |l.rx| == l.lastApplied + 1
    && (forall j :: 0 <= j < |l.rx| ==> l.rx[j] == received[j].data)
  }

  // stable_idx is the last index with no missing predecessor, and no later one is.
  ghost predicate StableExact(l: RingLog, received: map<int, Entry>) {
    (forall j :: 0 <= j <= l.stableIdx ==> j in received) && l.stableIdx + 1 !in received
  }

  // The term check_prev_log_match finds behind stable_idx: that of the last stable entry,
  // unless this entry is applied and the one a lap later is already in its slot.
  ghost function TermBehind(l: RingLog, received: map<int, Entry>): int
    requires Refines(l, received) && l.stableIdx >= 0
  {
    var nextLap := l.stableIdx + |l.slots|;
    if l.stableIdx == l.lastApplied && nextLap in received then received[nextLap].term
    else received[l.stableIdx].term
  }

  lemma StableTermRead(l: RingLog, received: map<int, Entry>)
    requires Refines(l, received) && l.stableIdx >= 0
    ensures SlotAt(l.slots, l.stableIdx).term == TermBehind(l, received)
  {
    if l.stableIdx > l.lastApplied {
      assert InWindow(l.lastApplied, |l.slots|, l.stableIdx);
    } else if l.stableIdx + |l.slots| in received {
      NextLapSharesSlot(|l.slots|, l.stableIdx);
      assert InWindow(l.lastApplied, |l.slots|, l.stableIdx + |l.slots|);
    }
  }

  lemma RefinesCursors(l: RingLog, received: map<int, Entry>)
    requires Refines(l, received)
    ensures |l.slots| > 0 && CursorsOrdered(l)
  {
  }

  lemma WindowInjective(base: int, width: nat, j: int, k: int)
    requires width > 0
    requires InWindow(base, width, j) && InWindow(base, width, k)
    requires BufferIdx(width, j) == BufferIdx(width, k)
    ensures j == k
  {
    RemainderInjective(j, k, width);
  }

  // Nothing was delivered or committed, and no slot was added.
  ghost predicate SameProgress(l: RingLog, l': RingLog) {
    && l'.lastApplied == l.lastApplied && l'.commitIdx == l.commitIdx && l'.rx == l.rx
    && l'.lastIdx >= l.lastIdx && |l'.slots| == |l.slots|
  }

  lemma SameProgressRefl(l: RingLog)
    ensures SameProgress(l, l)
  {
  }

  lemma AppendRefines(l: RingLog, received: map<int, Entry>, data: Chunk, term: int, idx: int)
    requires Refines(l, received)
    requires InWindow(l.lastApplied, |l.slots|, idx)
    requires l.commitIdx <= idx
    ensures AppendCommand(l, data, term, idx).Some?
    ensures Refines(AppendCommand(l, data, term, idx).value, received[idx := Entry(term, data)])
    ensures var l' := AppendCommand(l, data, term, idx).value;
      SameProgress(l, l') && l'.stableIdx == l.stableIdx
  {
    var l' := AppendCommand(l, data, term, idx).value;
    var received' := received[idx := Entry(term, data)];
    forall j | InWindow(l.lastApplied, |l.slots|, j) && j != idx
      ensures SlotAt(l'.slots, j) == SlotAt(l.slots, j)
    {
      if BufferIdx(|l.slots|, j) == BufferIdx(|l.slots|, idx) {
        WindowInjective(l.lastApplied, |l.slots|, j, idx);
      }
    }
    assert SlotAt(l'.slots, idx) == Slot(true, term, data);
    AppendKeepsAppliedTerm(l, received, data, term, idx);
    hide AppliedTermKept;
  }

  lemma AppendKeepsAppliedTerm(l: RingLog, received: map<int, Entry>, data: Chunk, term: int, idx: int)
    requires |l.slots| > 0 && AppliedTermKept(l, received)
    requires InWindow(l.lastApplied, |l.slots|, idx) && l.lastApplied <= INT32_MAX
    ensures AppliedTermKept(l.(slots := l.slots[BufferIdx(|l.slots|, idx) := Slot(true, term, data)],
                               lastIdx := Max(l.lastIdx, idx)), received[idx := Entry(term, data)])
  {
    if 0 <= l.lastApplied && idx < l.lastApplied + |l.slots| {
      if BufferIdx(|l.slots|, l.lastApplied) == BufferIdx(|l.slots|, idx) {
        RemainderInjective(l.lastApplied, idx, |l.slots|);
      }
    }
  }

  lemma {:induction false} StableScanExact(l: RingLog, received: map<int, Entry>, stable: int)
    requires Refines(l, received)
    requires l.stableIdx <= stable <= l.lastIdx
    requires forall j :: 0 <= j <= stable ==> j in received
    ensures var s := StableScan(l.slots, stable, l.lastIdx);
      stable <= s <= l.lastIdx && (forall j :: 0 <= j <= s ==> j in received) && s + 1 !in received
    decreases l.lastIdx - stable
  {
    hide BufferIdx;
    if stable + 1 <= l.lastIdx {
      assert InWindow(l.lastApplied, |l.slots|, stable + 1);
      if SlotAt(l.slots, stable + 1).valid {
        StableScanExact(l, received, stable + 1);
      }
    }
  }

  lemma UpdateStableRefines(l: RingLog, received: map<int, Entry>)
    requires Refines(l, received)
    ensures Refines(UpdateStableIdx(l), received)
    ensures StableExact(UpdateStableIdx(l), received)
    ensures UpdateStableIdx(l).stableIdx >= l.stableIdx
  {
    hide BufferIdx, StableScan;
    StableScanExact(l, received, l.stableIdx);
  }

  // Sliding the window by one leaves every index in it as it was.
  lemma ApplyOneKeepsSlot(l: RingLog, received: map<int, Entry>, j: int)
    requires Refines(l, received)
    requires l.lastApplied < l.commitIdx && InWindow(l.lastApplied + 1, |l.slots|, j)
    ensures var slot := SlotAt(ApplyOne(l).slots, j);
      && (slot.valid <==> j in received)
      && (j in received ==> slot.term == received[j].term && slot.data == received[j].data)
  {
    var next, n := l.lastApplied + 1, |l.slots|;
    assert InWindow(l.lastApplied, n, next);
    if j <= l.lastApplied + n {
      assert InWindow(l.lastApplied, n, j);
      if BufferIdx(n, j) == BufferIdx(n, next) {
        WindowInjective(l.lastApplied, n, j, next);
      }
      assert SlotAt(ApplyOne(l).slots, j) == SlotAt(l.slots, j);
    } else {
      NextLapSharesSlot(n, next);
      assert j == next + n;
      assert j > l.lastIdx;
    }
  }

  lemma ApplyOneRefines(l: RingLog, received: map<int, Entry>)
    requires Refines(l, received)
    requires l.lastApplied < l.commitIdx
    ensures Refines(ApplyOne(l), received)
    ensures ApplyOne(l).commitIdx == l.commitIdx && ApplyOne(l).lastApplied == l.lastApplied + 1
    ensures SameEnds(l, ApplyOne(l)) && l.rx <= ApplyOne(l).rx
  {
    var l' := ApplyOne(l);
    assert InWindow(l.lastApplied, |l.slots|, l'.lastApplied);
    assert AppliedTermKept(l', received);
    assert l'.rx == l.rx + [received[l'.lastApplied].data];
    forall j | InWindow(l'.lastApplied, |l'.slots|, j)
      ensures SlotAt(l'.slots, j).valid <==> j in received
      ensures j in received ==>
        SlotAt(l'.slots, j).term == received[j].term && SlotAt(l'.slots, j).data == received[j].data
    {
      ApplyOneKeepsSlot(l, received, j);
    }
    hide AppliedTermKept, BufferIdx, SlotAt;
  }

  lemma NextLapSharesSlot(width: nat, j: int)
    requires width > 0 && 0 <= j && j + width <= INT32_MAX
    ensures BufferIdx(width, j + width) == BufferIdx(width, j)
  {
    assert Remainder(j + width, width) == Remainder(j, width);
  }

  lemma {:induction false} ApplyRefines(l: RingLog, received: map<int, Entry>, accepts: nat)
    requires Refines(l, received)
    ensures var l' := ApplyLog(l, accepts);
      && Refines(l', received)
      && l'.lastApplied == Min(l.lastApplied + accepts, l.commitIdx)
      && l'.commitIdx == l.commitIdx && l'.stableIdx == l.stableIdx && l'.lastIdx == l.lastIdx
      && |l'.slots| == |l.slots|
      && l.rx <= l'.rx
    decreases accepts
  {
    RefinesCursors(l, received);
    hide Refines, ApplyOne;
    if l.lastApplied < l.commitIdx && accepts > 0 {
      ApplyOneRefines(l, received);
      ApplyRefines(ApplyOne(l), received, accepts - 1);
    }
  }

  lemma CommitRefines(l: RingLog, received: map<int, Entry>, commitIdx: int, accepts: nat)
    requires Refines(l, received)
    ensures var l' := CommitLog(l, commitIdx, accepts);
      && Refines(l', received)
      && l'.commitIdx == (if l.commitIdx < commitIdx <= l.stableIdx then commitIdx else l.commitIdx)
      && l'.lastApplied >= l.lastApplied && l'.stableIdx == l.stableIdx && l'.lastIdx == l.lastIdx
      && |l'.slots| == |l.slots|
      && l.rx <= l'.rx
  {
    if l.commitIdx < commitIdx <= l.stableIdx {
      ApplyRefines(l.(commitIdx := commitIdx), received, accepts);
    }
  }

  // append_command's only test lets through every index from commit_idx on. Writing the
  // last applied index again keeps the log in order only if nothing changes by it: the
  // same data, and in the slot it shares with the next lap the same entry, already there.
  ghost predicate HarmlessRewrite(l: RingLog, received: map<int, Entry>, data: Chunk, term: int, idx: int) {
    && 0 <= idx == l.lastApplied && idx in received && received[idx].data == data
    && (idx + |l.slots| <= INT32_MAX ==>
         idx + |l.slots| in received && received[idx + |l.slots|] == Entry(term, data))
  }

  // An accepted append adds its index to the unbounded log exactly when the index lies in
  // the open window, or rewrites the last applied index harmlessly.
  lemma AppendRefinesIff(l: RingLog, received: map<int, Entry>, data: Chunk, term: int, idx: int)
    requires Refines(l, received) && l.commitIdx <= idx
    ensures AppendCommand(l, data, term, idx).Some?
    ensures Refines(AppendCommand(l, data, term, idx).value, received[idx := Entry(term, data)]) <==>
      InWindow(l.lastApplied, |l.slots|, idx) || HarmlessRewrite(l, received, data, term, idx)
  {
    if InWindow(l.lastApplied, |l.slots|, idx) {
      AppendRefines(l, received, data, term, idx);
    } else if 0 <= idx == l.lastApplied {
      RewriteRefinesIff(l, received, data, term);
    } else {
      assert idx in received[idx := Entry(term, data)];
    }
  }

  lemma RewriteRefinesIff(l: RingLog, received: map<int, Entry>, data: Chunk, term: int)
    requires Refines(l, received) && 0 <= l.lastApplied == l.commitIdx
    ensures Refines(AppendCommand(l, data, term, l.lastApplied).value, received[l.lastApplied := Entry(term, data)])
      <==> HarmlessRewrite(l, received, data, term, l.lastApplied)
  {
    if HarmlessRewrite(l, received, data, term, l.lastApplied) {
      HarmlessRewriteRefines(l, received, data, term);
    } else {
      OtherRewriteBreaks(l, received, data, term);
    }
  }

  lemma OtherRewriteBreaks(l: RingLog, received: map<int, Entry>, data: Chunk, term: int)
    requires Refines(l, received) && 0 <= l.lastApplied == l.commitIdx
    requires !HarmlessRewrite(l, received, data, term, l.lastApplied)
    ensures !Refines(AppendCommand(l, data, term, l.lastApplied).value, received[l.lastApplied := Entry(term, data)])
  {
    var idx, n := l.lastApplied, |l.slots|;
    var l' := AppendCommand(l, data, term, idx).value;
    assert l'.rx == l.rx && l.rx[idx] == received[idx].data;
    if idx + n <= INT32_MAX {
      NextLapSharesSlot(n, idx);
      assert InWindow(idx, n, idx + n);
      assert SlotAt(l'.slots, idx + n) == Slot(true, term, data);
    }
  }

  lemma HarmlessRewriteRefines(l: RingLog, received: map<int, Entry>, data: Chunk, term: int)
    requires Refines(l, received) && 0 <= l.lastApplied == l.commitIdx
    requires HarmlessRewrite(l, received, data, term, l.lastApplied)
    ensures Refines(AppendCommand(l, data, term, l.lastApplied).value, received[l.lastApplied := Entry(term, data)])
  {
    var idx, n := l.lastApplied, |l.slots|;
    var l' := AppendCommand(l, data, term, idx).value;
    forall j | InWindow(idx, n, j)
      ensures SlotAt(l'.slots, j).valid <==> j in received
      ensures j in received ==>
        SlotAt(l'.slots, j).term == received[j].term && SlotAt(l'.slots, j).data == received[j].data
    {
      if j == idx + n {
        NextLapSharesSlot(n, idx);
      } else if BufferIdx(n, j) == BufferIdx(n, idx) {
        RemainderInjective(j, idx, n);
      }
    }
    assert l'.rx == l.rx && l.rx[idx] == received[idx].data;
    hide BufferIdx, SlotAt;
  }

  // One way to fall outside the window: a lap ahead of an entry that was never applied,
  // whose data is then gone.
  lemma OverrunLosesEntry(l: RingLog, received: map<int, Entry>, data: Chunk, term: int, j: int)
    requires Refines(l, received)
    requires l.lastApplied < j <= l.lastIdx && j in received && received[j].data != data
    requires j + |l.slots| <= INT32_MAX && l.commitIdx <= j + |l.slots|
    ensures var r := AppendCommand(l, data, term, j + |l.slots|);
      r.Some? && SlotAt(r.value.slots, j).valid && SlotAt(r.value.slots, j).data != received[j].data
  {
    NextLapSharesSlot(|l.slots|, j);
  }

  // The other: the last applied index again, after which the index a lap later looks
  // received although it never was.
  lemma RewriteFakesNextLap(l: RingLog, received: map<int, Entry>, data: Chunk, term: int)
    requires Refines(l, received) && 0 <= l.lastApplied == l.commitIdx
    requires l.lastApplied + |l.slots| <= INT32_MAX && l.lastApplied + |l.slots| !in received
    ensures var r := AppendCommand(l, data, term, l.lastApplied);
      && r.Some? && InWindow(l.lastApplied, |l.slots|, l.lastApplied + |l.slots|)
      && SlotAt(r.value.slots, l.lastApplied + |l.slots|).valid
      && !Refines(r.value, received[l.lastApplied := Entry(term, data)])
  {
    NextLapSharesSlot(|l.slots|, l.lastApplied);
    AppendRefinesIff(l, received, data, term, l.lastApplied);
  }

  // ---------- runs of log operations ----------

  datatype LogOp =
    | Write(data: Chunk, term: int, idx: int)
    | Scan
    | Commit(commitIdx: int, accepts: nat)

  function LogStep(l: RingLog, op: LogOp): (l': RingLog)
    requires |l.slots| > 0
    ensures |l'.slots| > 0
  {
    match op
    case Write(data, term, idx) =>
      var r := AppendCommand(l, data, term, idx);
      if r.Some? then r.value else l
    case Scan => UpdateStableIdx(l)
    case Commit(commitIdx, accepts) =>
      CommitKeepsEnds(l, commitIdx, accepts);
      CommitLog(l, commitIdx, accepts)
  }

  // Committing and applying never touch the receiving end of the log.
  predicate SameEnds(l: RingLog, l': RingLog) {
    |l'.slots| == |l.slots| && l'.stableIdx == l.stableIdx && l'.lastIdx == l.lastIdx
  }

  // No slot but may have lost its valid flag.
  ghost predicate OnlyInvalidated(slots: seq<Slot>, slots': seq<Slot>) {
    && |slots'| == |slots|
    && forall k :: 0 <= k < |slots| ==> slots'[k] == slots[k] || slots'[k] == slots[k].(valid := false)
  }

  lemma {:induction false} ApplyKeepsEnds(l: RingLog, accepts: nat)
    requires |l.slots| > 0
    ensures var l' := ApplyLog(l, accepts);
      SameEnds(l, l') && l'.commitIdx == l.commitIdx && OnlyInvalidated(l.slots, l'.slots)
    decreases accepts
  {
    if l.lastApplied < l.commitIdx && accepts > 0 {
      ApplyKeepsEnds(ApplyOne(l), accepts - 1);
    }
  }

  lemma CommitKeepsEnds(l: RingLog, commitIdx: int, accepts: nat)
    requires |l.slots| > 0
    ensures var l' := CommitLog(l, commitIdx, accepts);
      && SameEnds(l, l') && OnlyInvalidated(l.slots, l'.slots)
      && l'.commitIdx == (if l.commitIdx < commitIdx <= l.stableIdx then commitIdx else l.commitIdx)
  {
    ApplyKeepsEnds(l.(commitIdx := commitIdx), accepts);
  }

  // The entries written so far, after one more operation.
  ghost function ReceivedStep(l: RingLog, received: map<int, Entry>, op: LogOp): map<int, Entry> {
    if op.Write? && l.commitIdx <= op.idx then received[op.idx := Entry(op.term, op.data)] else received
  }

  // Every accepted append falls into the window that is open when it happens.
  ghost predicate WithinWindow(l: RingLog, ops: seq<LogOp>)
    requires |l.slots| > 0
    decreases |ops|
  {
    ops == [] ||
    ((ops[0].Write? && l.commitIdx <= ops[0].idx ==> InWindow(l.lastApplied, |l.slots|, ops[0].idx))
     && WithinWindow(LogStep(l, ops[0]), ops[1..]))
  }

  function RunLog(l: RingLog, ops: seq<LogOp>): (l': RingLog)
    requires |l.slots| > 0
    ensures |l'.slots| > 0
    decreases |ops|
  {
    if ops == [] then l else RunLog(LogStep(l, ops[0]), ops[1..])
  }

  ghost function RunReceived(l: RingLog, received: map<int, Entry>, ops: seq<LogOp>): map<int, Entry>
    requires |l.slots| > 0
    decreases |ops|
  {
    if ops == [] then received
    else RunReceived(LogStep(l, ops[0]), ReceivedStep(l, received, ops[0]), ops[1..])
  }

  lemma LogStepRefines(l: RingLog, received: map<int, Entry>, op: LogOp)
    requires Refines(l, received) && WithinWindow(l, [op])
    ensures Refines(LogStep(l, op), ReceivedStep(l, received, op))
    ensures l.rx <= LogStep(l, op).rx
  {
    match op
    case Write(data, term, idx) =>
      if l.commitIdx <= idx {
        AppendRefines(l, received, data, term, idx);
      }
    case Scan => UpdateStableRefines(l, received);
    case Commit(commitIdx, accepts) => CommitRefines(l, received, commitIdx, accepts);
  }

  // Whatever is appended, committed and refused, the sink has been handed exactly the
  // received entries 0..last_applied, in order, and nothing handed over ever changes.
  lemma {:induction false} DeliveredExactlyOnce(l: RingLog, received: map<int, Entry>, ops: seq<LogOp>)
    requires Refines(l, received) && WithinWindow(l, ops)
    ensures var l', received' := RunLog(l, ops), RunReceived(l, received, ops);
      && Refines(l', received')
      && l.rx <= l'.rx
      && |l'.rx| == l'.lastApplied + 1
      && forall j :: 0 <= j <= l'.lastApplied ==> j in received' && l'.rx[j] == received'[j].data
    decreases |ops|
  {
    if ops != [] {
      LogStepRefines(l, received, ops[0]);
      DeliveredExactlyOnce(LogStep(l, ops[0]), ReceivedStep(l, received, ops[0]), ops[1..]);
    }
  }

  // ---------- reading a term back ----------

  // -1 stands for the source's error return.
  function GetPrevLogTerm(l: RingLog, currentTerm: int, conIdx: int): int
    requires |l.slots| > 0
  {
    if conIdx == -1 then currentTerm
    else if conIdx < -1 then -1
    else if BufferIdx(|l.slots|, conIdx) > l.lastIdx then -1
    else SlotAt(l.slots, conIdx).term
  }
}
