/** How consensus messages are laid out in a block of a packet: what set_le_opcode and
    set_ae_data write and what the receiving handlers read with the offset macros of
    payload.h. */
module Wire {
  import opened Types
  import opened Bytes
  import opened RingLogs
  import opened KvStore
  import opened Nodes
  import opened Replication

  const NOMI := 1
  const VOTE := 2
  const APPEND := 4
  const APPEND_REPLY := 5
  const ALIVE := 6

  // ---------- four-parameter messages ----------

  datatype LeMsg = LeMsg(opcode: int, param1: int, param2: int, param3: int, param4: int)

  // The handlers read every parameter, the unsigned first one too, into an int32_t.
  function DecodeLe(s: seq<Byte>, base: nat): LeMsg
    requires base + 22 <= |s|
  {
    LeMsg(GetU16(s, base + 4), GetS32(s, base + 6), GetS32(s, base + 10), GetS32(s, base + 14), GetS32(s, base + 18))
  }

  method SetLeOpcode(p: array<Byte>, base: nat, opco: int, p1: int, p2: int, p3: int, p4: int)
    requires base + 22 <= p.Length && IsUint16(opco)
    modifies p
    ensures DecodeLe(p[..], base) == OnWire(LeMsg(opco, p1, p2, p3, p4))
    ensures GetU16(p[..], base + 4) == opco
    ensures GetU32(p[..], base + 6) == ToU32(p1) && GetU32(p[..], base + 10) == ToU32(p2)
    ensures GetU32(p[..], base + 14) == ToU32(p3) && GetU32(p[..], base + 18) == ToU32(p4)
    ensures OnlyChanged(old(p[..]), p[..], base + 4, 18)
  {
    PutU16(p, base + 4, opco);
    Put32(p, base + 6, p1);
    Put32(p, base + 10, p2);
    Put32(p, base + 14, p3);
    Put32(p, base + 18, p4);
  }

  // The fields are int32_t values: terms, ids and indices alike, -1 included.
  predicate FieldsFit(b: Body) {
    match b
    case Nomi(term, candidateId, lastIdx, lastTerm) =>
      IsInt32(term) && IsInt32(candidateId) && IsInt32(lastIdx) && IsInt32(lastTerm)
    case Vote(term, candidateId) => IsInt32(term) && IsInt32(candidateId)
    case Append(term, leaderId, prevLogIdx, prevLogTerm, commitIdx, entries, pktSize) =>
      && IsInt32(term) && IsInt32(leaderId) && IsInt32(prevLogIdx) && IsInt32(prevLogTerm) && IsInt32(commitIdx)
      && |entries| <= INT32_MAX && IsUint16(pktSize)
    case AppendReply(term, success, loggedIdx, stableIdx) =>
      IsInt32(term) && IsInt32(success) && IsInt32(loggedIdx) && IsInt32(stableIdx)
    case Alive(term, commitIdx, stableIdx, hbInterval) =>
      IsInt32(term) && IsInt32(commitIdx) && IsInt32(stableIdx) && IsInt32(hbInterval)
  }

  // The parameters the setup functions pass for each kind of message.
  function LeParams(b: Body): LeMsg
    requires !b.Append?
  {
    match b
    case Nomi(term, candidateId, lastIdx, lastTerm) => LeMsg(NOMI, term, candidateId, lastIdx, lastTerm)
    case Vote(term, candidateId) => LeMsg(VOTE, term, candidateId, 0, 0)
    case AppendReply(term, success, loggedIdx, stableIdx) => LeMsg(APPEND_REPLY, term, success, loggedIdx, stableIdx)
    case Alive(term, commitIdx, stableIdx, hbInterval) => LeMsg(ALIVE, term, commitIdx, stableIdx, hbInterval)
  }

  // ---------- APPEND ----------

  // A stored command is struct data_chunk: eight bytes.
  ghost predicate IsChunk(c: Chunk) {
    |c.data| == AE_ENTRY_SIZE && forall k :: 0 <= k < AE_ENTRY_SIZE ==> 0 <= c.data[k] < 256
  }

  ghost predicate ChunksFit(slots: seq<Slot>, first: int, count: nat)
    requires |slots| > 0
  {
    forall j :: first <= j < first + count ==> IsChunk(SlotAt(slots, j).data)
  }

  function DecodeEntries(s: seq<Byte>, at: nat, count: nat): (chunks: seq<Chunk>)
    requires at + AE_ENTRY_SIZE * count <= |s|
    ensures |chunks| == count
  {
    seq(count, k requires 0 <= k < count =>
      Chunk(s[at + AE_ENTRY_SIZE * k..at + AE_ENTRY_SIZE * k + AE_ENTRY_SIZE]))
  }

  const AE_ENTRIES_AT := 30

  ghost predicate Readable(s: seq<Byte>, base: nat) {
    base + AE_ENTRIES_AT <= |s| && base + AE_ENTRIES_AT + AE_ENTRY_SIZE * GetU32(s, base + 26) <= |s|
  }

  function DecodeAppend(s: seq<Byte>, base: nat): Body
    requires Readable(s, base)
  {
    Append(GetS32(s, base + 6), GetS32(s, base + 10), GetS32(s, base + 14), GetS32(s, base + 18), GetS32(s, base + 22),
           DecodeEntries(s, base + AE_ENTRIES_AT, GetU32(s, base + 26)), GetU16(s, base + 2))
  }

  function FromLe(m: LeMsg): Option<Body> {
    if m.opcode == NOMI then Some(Nomi(m.param1, m.param2, m.param3, m.param4))
    else if m.opcode == VOTE then Some(Vote(m.param1, m.param2))
    else if m.opcode == APPEND_REPLY then Some(AppendReply(m.param1, m.param2, m.param3, m.param4))
    else if m.opcode == ALIVE then Some(Alive(m.param1, m.param2, m.param3, m.param4))
    else None
  }

  // A message as the receiver reads it; None stands for an opcode consensus ignores.
  function DecodeBody(s: seq<Byte>, base: nat): Option<Body>
    requires base + 22 <= |s| && (GetU16(s, base + 4) == APPEND ==> Readable(s, base))
  {
    if GetU16(s, base + 4) == APPEND then Some(DecodeAppend(s, base)) else FromLe(DecodeLe(s, base))
  }

  // The message as its four parameters cross the wire.
  function OnWire(m: LeMsg): LeMsg {
    LeMsg(m.opcode, ToS32(ToU32(m.param1)), ToS32(ToU32(m.param2)), ToS32(ToU32(m.param3)), ToS32(ToU32(m.param4)))
  }

  lemma LeRoundTrip(b: Body)
    requires !b.Append? && FieldsFit(b)
    ensures LeParams(b).param1 == b.term
    ensures b.AppendReply? ==> LeParams(b) == LeMsg(APPEND_REPLY, b.term, b.success, b.loggedIdx, b.stableIdx)
    ensures b.Nomi? ==> LeParams(b).param3 == b.lastIdx && LeParams(b).param4 == b.lastTerm
    ensures b.Alive? ==> LeParams(b).param2 == b.commitIdx
    ensures LeParams(b).opcode != APPEND && IsUint16(LeParams(b).opcode)
    ensures FromLe(OnWire(LeParams(b))) == Some(b)
  {
    var m := LeParams(b);
    SignedOfUnsigned(m.param1);
    SignedOfUnsigned(m.param2);
    SignedOfUnsigned(m.param3);
    SignedOfUnsigned(m.param4);
  }

  // setup_le_msg, reply_append and setup_alive_msg once their block is reserved: what is
  // read back is the message, whatever its field values, -1 included.
  method WriteLe(p: array<Byte>, base: nat, b: Body)
    requires base + 22 <= p.Length && !b.Append? && FieldsFit(b)
    modifies p
    ensures GetU16(p[..], base + 4) != APPEND && DecodeBody(p[..], base) == Some(b)
    ensures OnlyChanged(old(p[..]), p[..], base + 4, 18)
  {
    var m := LeParams(b);
    LeRoundTrip(b);
    hide FieldsFit, LeParams, GetU16, GetU32, ToU32, ToS32, FromLe, OnlyChanged;
    SetLeOpcode(p, base, m.opcode, m.param1, m.param2, m.param3, m.param4);
  }

  // The entries set_ae_data includes: all that were asked for or none.
  function Included(l: RingLog, first: int, count: nat): seq<Chunk>
    requires |l.slots| > 0
  {
    if first > l.lastIdx || first + (count - 1) > l.lastIdx then [] else Chunks(l.slots, first, count)
  }

  lemma EntriesUntouched(s: seq<Byte>, t: seq<Byte>, at: nat, count: nat, from: nat, len: nat)
    requires at + AE_ENTRY_SIZE * count <= |s| == |t| && OnlyChanged(s, t, from, len)
    requires from >= at + AE_ENTRY_SIZE * count || from + len <= at
    ensures DecodeEntries(s, at, count) == DecodeEntries(t, at, count)
  {
    forall k | 0 <= k < count
      ensures DecodeEntries(s, at, count)[k] == DecodeEntries(t, at, count)[k]
    {
      assert s[at + AE_ENTRY_SIZE * k..at + AE_ENTRY_SIZE * k + AE_ENTRY_SIZE]
          == t[at + AE_ENTRY_SIZE * k..at + AE_ENTRY_SIZE * k + AE_ENTRY_SIZE];
    }
  }

  lemma OneMoreEntry(s: seq<Byte>, at: nat, slots: seq<Slot>, first: int, count: nat)
    requires at + AE_ENTRY_SIZE * (count + 1) <= |s| && |slots| > 0
    requires DecodeEntries(s, at, count) == Chunks(slots, first, count)
    requires s[at + AE_ENTRY_SIZE * count..at + AE_ENTRY_SIZE * count + AE_ENTRY_SIZE]
          == SlotAt(slots, first + count).data.data
    ensures DecodeEntries(s, at, count + 1) == Chunks(slots, first, count + 1)
  {
    hide SlotAt;
    assert DecodeEntries(s, at, count + 1) == DecodeEntries(s, at, count) + [SlotAt(slots, first + count).data];
    assert Chunks(slots, first, count + 1) == Chunks(slots, first, count) + [SlotAt(slots, first + count).data];
  }

  method CopyChunk(p: array<Byte>, at: nat, data: seq<int>)
    requires at + AE_ENTRY_SIZE <= p.Length && IsChunk(Chunk(data))
    modifies p
    ensures p[at..at + AE_ENTRY_SIZE] == data
    ensures OnlyChanged(old(p[..]), p[..], at, AE_ENTRY_SIZE)
  {
    for k := 0 to AE_ENTRY_SIZE
      invariant p[at..at + k] == data[..k]
      invariant OnlyChanged(old(p[..]), p[..], at, k)
    {
      p[at + k] := data[k];
    }
  }

  // The copying loop of set_ae_data.
  method CopyEntries(p: array<Byte>, at: nat, log: SmLog, first: int, count: nat)
    requires at + AE_ENTRY_SIZE * count <= p.Length && log.Valid()
    requires ChunksFit(log.entries[..], first, count)
    modifies p
    ensures DecodeEntries(p[..], at, count) == Chunks(log.entries[..], first, count)
    ensures OnlyChanged(old(p[..]), p[..], at, AE_ENTRY_SIZE * count)
    ensures log.View() == old(log.View())
  {
    var curPtr, i := at, first;
    while i < first + count
      invariant first <= i <= first + count && curPtr == at + AE_ENTRY_SIZE * (i - first)
      invariant DecodeEntries(p[..], at, i - first) == Chunks(log.entries[..], first, i - first)
      invariant OnlyChanged(old(p[..]), p[..], at, AE_ENTRY_SIZE * (i - first))
    {
      ghost var before := p[..];
      var data := log.entries[BufferIdx(log.entries.Length, i)].data.data;
      assert IsChunk(SlotAt(log.entries[..], i).data);
      CopyChunk(p, curPtr, data);
      EntriesUntouched(before, p[..], at, i - first, curPtr, AE_ENTRY_SIZE);
      OneMoreEntry(p[..], at, log.entries[..], first, i - first);
      ChangesAddUp(old(p[..]), before, p[..], at, AE_ENTRY_SIZE * (i - first), curPtr, AE_ENTRY_SIZE);
      curPtr := curPtr + AE_ENTRY_SIZE;
      i := i + 1;
    }
  }

  // The fields in front of the entries, as bit patterns.
  datatype AeHeader = AeHeader(opcode: int, term: int, leaderId: int, prevLogIdx: int, prevLogTerm: int,
                               commitIdx: int, count: int)

  function HeaderOf(s: seq<Byte>, base: nat): AeHeader
    requires base + AE_ENTRIES_AT <= |s|
  {
    AeHeader(GetU16(s, base + 4), GetU32(s, base + 6), GetU32(s, base + 10), GetU32(s, base + 14), GetU32(s, base + 18),
             GetU32(s, base + 22), GetU32(s, base + 26))
  }

  lemma HeaderUntouched(s: seq<Byte>, t: seq<Byte>, base: nat, at: nat, len: nat)
    requires base + AE_ENTRIES_AT <= |s| && OnlyChanged(s, t, at, len)
    ensures at >= base + AE_ENTRIES_AT ==> HeaderOf(t, base) == HeaderOf(s, base)
    ensures at == base + 26 && len == 4 ==> HeaderOf(t, base) == HeaderOf(s, base).(count := GetU32(t, base + 26))
  {
  }

  method SetAeHeader(p: array<Byte>, base: nat, term: int, leaderId: int, firstIdx: int, prevLogTerm: int,
                     commitIdx: int, count: nat)
    requires base + AE_ENTRIES_AT <= p.Length
    modifies p
    ensures HeaderOf(p[..], base) == AeHeader(APPEND, ToU32(term), ToU32(leaderId), ToU32(firstIdx - 1),
                                              ToU32(prevLogTerm), ToU32(commitIdx), ToU32(count))
    ensures OnlyChanged(old(p[..]), p[..], base + 4, 26)
  {
    PutU16(p, base + 4, APPEND);
    Put32(p, base + 6, term);
    Put32(p, base + 10, leaderId);
    Put32(p, base + 14, firstIdx - 1);
    Put32(p, base + 18, prevLogTerm);
    Put32(p, base + 26, count);
    Put32(p, base + 22, commitIdx);
  }

  // Header and entries as set_ae_data leaves them, still as bit patterns.
  method WriteAeData(p: array<Byte>, base: nat, term: int, leaderId: int, firstIdx: int, prevLogTerm: int,
                     commitIdx: int, log: SmLog, count: nat)
    requires base + AE_ENTRIES_AT + AE_ENTRY_SIZE * count <= p.Length && log.Valid()
    requires ChunksFit(log.entries[..], firstIdx, count)
    modifies p
    ensures var included := Included(log.View(), firstIdx, count);
      && HeaderOf(p[..], base) == AeHeader(APPEND, ToU32(term), ToU32(leaderId), ToU32(firstIdx - 1),
                                           ToU32(prevLogTerm), ToU32(commitIdx), ToU32(|included|))
      && |included| <= count
      && DecodeEntries(p[..], base + AE_ENTRIES_AT, |included|) == included
    ensures OnlyChanged(old(p[..]), p[..], base + 4, 26 + AE_ENTRY_SIZE * count)
    ensures log.View() == old(log.View())
  {
    hide ToU32, HeaderOf, OnlyChanged, DecodeEntries, ChunksFit, GetU32, SlotAt, BufferIdx, Chunks;
    SetAeHeader(p, base, term, leaderId, firstIdx, prevLogTerm, commitIdx, count);
    if count == 0 {
      return;
    }
    ghost var header := p[..];
    if firstIdx > log.lastIdx {
      Put32(p, base + 26, 0);
      HeaderUntouched(header, p[..], base, base + 26, 4);
      ChangesAddUp(old(p[..]), header, p[..], base + 4, 26, base + 26, 4);
      return;
    }
    if firstIdx + (count - 1) > log.lastIdx {
      Put32(p, base + 26, 0);
      HeaderUntouched(header, p[..], base, base + 26, 4);
      ChangesAddUp(old(p[..]), header, p[..], base + 4, 26, base + 26, 4);
      return;
    }
    CopyEntries(p, base + AE_ENTRIES_AT, log, firstIdx, count);
    HeaderUntouched(header, p[..], base, base + AE_ENTRIES_AT, AE_ENTRY_SIZE * count);
    ChangesAddUp(old(p[..]), header, p[..], base + 4, 26, base + AE_ENTRIES_AT, AE_ENTRY_SIZE * count);
  }

  // What the receiver reads back is what was written, for every field value, the index -1
  // included, and for any number of entries.
  method SetAeData(p: array<Byte>, base: nat, term: int, leaderId: int, firstIdx: int, prevLogTerm: int,
                   commitIdx: int, log: SmLog, count: nat)
    requires base + AE_ENTRIES_AT + AE_ENTRY_SIZE * count <= p.Length && log.Valid()
    requires IsInt32(term) && IsInt32(leaderId) && IsInt32(firstIdx - 1) && IsInt32(prevLogTerm)
    requires IsInt32(commitIdx) && count <= INT32_MAX
    requires ChunksFit(log.entries[..], firstIdx, count)
    modifies p
    ensures GetU16(p[..], base + 4) == APPEND && Readable(p[..], base)
    ensures DecodeAppend(p[..], base) == Append(term, leaderId, firstIdx - 1, prevLogTerm, commitIdx,
                                                Included(log.View(), firstIdx, count), GetU16(old(p[..]), base + 2))
    ensures OnlyChanged(old(p[..]), p[..], base + 4, 26 + AE_ENTRY_SIZE * count)
    ensures log.View() == old(log.View())
  {
    WriteAeData(p, base, term, leaderId, firstIdx, prevLogTerm, commitIdx, log, count);
    SignedOfUnsigned(term);
    SignedOfUnsigned(leaderId);
    SignedOfUnsigned(firstIdx - 1);
    SignedOfUnsigned(prevLogTerm);
    SignedOfUnsigned(commitIdx);
    hide DecodeEntries, Included, ToS32;
  }

  // The pointer walk of append_commands over the entries of a packet.
  method ReadEntries(s: seq<Byte>, base: nat, count: nat) returns (chunks: seq<Chunk>)
    requires base + AE_ENTRIES_AT + AE_ENTRY_SIZE * count <= |s|
    ensures chunks == DecodeEntries(s, base + AE_ENTRIES_AT, count)
  {
    chunks := [];
    var curPtr := base + AE_ENTRIES_AT;
    while |chunks| < count
      invariant |chunks| <= count && curPtr == base + AE_ENTRIES_AT + AE_ENTRY_SIZE * |chunks|
      invariant chunks == DecodeEntries(s, base + AE_ENTRIES_AT, |chunks|)
    {
      chunks := chunks + [Chunk(s[curPtr..curPtr + AE_ENTRY_SIZE])];
      curPtr := curPtr + AE_ENTRY_SIZE;
    }
  }
}
