/** The log kvstore.c updates in place; every method computes the operation of RingLogs. */
module KvStore {
  import opened Types
  import opened L = RingLogs

  class SmLog {
    const entries: array<Slot>
    var lastApplied: int
    var commitIdx: int
    var stableIdx: int
    var lastIdx: int
    var rx: seq<Chunk>

    ghost predicate Valid() {
      entries.Length > 0
    }

    ghost function View(): RingLog
      reads this, entries
    {
      RingLog(entries[..], lastApplied, commitIdx, stableIdx, lastIdx, rx)
    }

    constructor (maxEntries: nat)
      requires maxEntries > 0
      ensures Valid() && fresh(entries) && entries.Length == maxEntries
      ensures Refines(View(), map[]) && StableExact(View(), map[])
      ensures forall k :: 0 <= k < maxEntries ==> !entries[k].valid
    {
      entries := new Slot[maxEntries];
      lastApplied, commitIdx, stableIdx, lastIdx := -1, -1, -1, -1;
      rx := [];
      new;
      for i := 0 to maxEntries
        invariant lastApplied == commitIdx == stableIdx == lastIdx == -1 && rx == []
        invariant forall k :: 0 <= k < i ==> !entries[k].valid
      {
        entries[i] := entries[i].(valid := false);
      }
    }

    method AppendCommand(data: Chunk, term: int, idx: int) returns (ok: bool)
      requires Valid()
      modifies this`lastIdx, entries
      ensures var r := L.AppendCommand(old(View()), data, term, idx);
        ok == r.Some? && View() == if ok then r.value else old(View())
    {
      if commitIdx > idx {
        return false;
      }
      entries[BufferIdx(entries.Length, idx)] := Slot(true, term, data);
      if lastIdx < idx {
        lastIdx := idx;
      }
      return true;
    }

    method UpdateStableIdx()
      requires Valid()
      modifies this`stableIdx
      ensures View() == L.UpdateStableIdx(old(View()))
    {
      var i := stableIdx + 1;
      while i <= lastIdx
        invariant i == stableIdx + 1
        invariant StableScan(entries[..], stableIdx, lastIdx) == StableScan(entries[..], old(stableIdx), lastIdx)
        decreases lastIdx - i
      {
        if !entries[BufferIdx(entries.Length, i)].valid {
          break;
        }
        stableIdx := i;
        i := i + 1;
      }
    }

    method ApplyLogToSm(accepts: nat) returns (ok: bool)
      requires Valid()
      modifies this`lastApplied, this`rx, entries
      ensures View() == ApplyLog(old(View()), accepts)
      ensures ok <==> commitIdx <= lastApplied
    {
      var i, taken := lastApplied + 1, 0;
      while i <= commitIdx
        invariant i == lastApplied + 1 && 0 <= taken <= accepts
        invariant ApplyLog(View(), accepts - taken) == ApplyLog(old(View()), accepts)
        decreases commitIdx - i
      {
        var bufIdx := BufferIdx(entries.Length, i);
        if taken == accepts {
          return false;
        }
        rx := rx + [entries[bufIdx].data];
        taken := taken + 1;
        entries[bufIdx] := entries[bufIdx].(valid := false);
        lastApplied := lastApplied + 1;
        i := i + 1;
      }
      return true;
    }

    method CommitLog(newCommitIdx: int, accepts: nat)
      requires Valid()
      modifies this`commitIdx, this`lastApplied, this`rx, entries
      ensures View() == L.CommitLog(old(View()), newCommitIdx, accepts)
    {
      if newCommitIdx > commitIdx {
        if newCommitIdx <= stableIdx {
          commitIdx := newCommitIdx;
          var _ := ApplyLogToSm(accepts);
        }
      }
    }

    method GetPrevLogTerm(currentTerm: int, conIdx: int) returns (term: int)
      requires Valid()
      ensures term == L.GetPrevLogTerm(View(), currentTerm, conIdx)
    {
      if conIdx == -1 {
        return currentTerm;
      }
      if conIdx < -1 {
        return -1;
      }
      var idx := BufferIdx(entries.Length, conIdx);
      if idx > lastIdx {
        return -1;
      }
      return entries[idx].term;
    }
  }
}
