/** The payload of a packet as a chain of blocks: asgard_reserve_proto on the sending side
    and the walk of handle_sub_payloads on the receiving side. */
module Payloads {
  import opened Types
  import opened Bytes
  import opened RingLogs
  import opened KvStore
  import opened Nodes
  import opened Replication
  import opened Wire

  const MAX_ASGARD_PAYLOAD_BYTES := 1418
  const PROTO_DATA_BYTES := 1416
  const ASGARD_PROTO_CON_PAYLOAD_SZ := 22
  // No reservation the source makes is smaller than this.
  const MIN_BLOCK := 20

  // One protocol instance's share of the payload: its id and size head the block.
  datatype Block = Block(id: int, size: nat)

  function Offset(blocks: seq<Block>, i: nat): nat
    requires i <= |blocks|
  {
    if i == 0 then 0 else Offset(blocks, i - 1) + blocks[i - 1].size
  }

  function End(blocks: seq<Block>): nat {
    Offset(blocks, |blocks|)
  }

  ghost predicate BlockAt(s: seq<Byte>, at: nat, b: Block) {
    at + 4 <= |s| && GetU16(s, at) == b.id && GetU16(s, at + 2) == b.size
  }

  // Following sizes from the start meets exactly these blocks.
  ghost predicate Chain(s: seq<Byte>, blocks: seq<Block>) {
    forall i :: 0 <= i < |blocks| ==> BlockAt(s, Offset(blocks, i), blocks[i])
  }

  lemma {:induction false} ChainMeets(s: seq<Byte>, blocks: seq<Block>, i: nat)
    requires Chain(s, blocks) && i < |blocks|
    ensures BlockAt(s, Offset(blocks, i), blocks[i])
    ensures Offset(blocks, i) + 4 <= |s|
    ensures GetU16(s, Offset(blocks, i)) == blocks[i].id && GetU16(s, Offset(blocks, i) + 2) == blocks[i].size
  {
  }

  ghost predicate DistinctIds(blocks: seq<Block>) {
    forall i, j :: 0 <= i < j < |blocks| ==> blocks[i].id != blocks[j].id
  }

  ghost predicate Layout(blocks: seq<Block>) {
    DistinctIds(blocks) && forall i :: 0 <= i < |blocks| ==> blocks[i].size >= MIN_BLOCK
  }

  // ---------- reservation on blocks ----------

  function IndexOf(blocks: seq<Block>, id: int): (i: nat)
    ensures i <= |blocks|
    ensures forall j :: 0 <= j < i ==> blocks[j].id != id
    ensures i < |blocks| ==> blocks[i].id == id
  {
    if blocks == [] then 0 else if blocks[0].id == id then 0 else 1 + IndexOf(blocks[1..], id)
  }

  // Where the block goes and what the chain becomes; None is the full payload. Reuse is
  // not checked against the limit.
  function Reserve(blocks: seq<Block>, id: int, size: nat): Option<(nat, seq<Block>)> {
    var i := IndexOf(blocks, id);
    if i < |blocks| then Some((Offset(blocks, i), blocks[i := Block(id, size)]))
    else if End(blocks) + size > MAX_ASGARD_PAYLOAD_BYTES then None
    else Some((End(blocks), blocks + [Block(id, size)]))
  }

  // A reuse that leaves the later blocks where they are.
  predicate InPlace(blocks: seq<Block>, id: int, size: nat) {
    var i := IndexOf(blocks, id);
    i + 1 >= |blocks| || blocks[i].size == size
  }

  lemma {:induction false} OffsetsAgree(a: seq<Block>, b: seq<Block>, i: nat)
    requires i <= |a| && i <= |b|
    requires forall k :: 0 <= k < i ==> a[k].size == b[k].size
    ensures Offset(a, i) == Offset(b, i)
  {
    if i > 0 {
      OffsetsAgree(a, b, i - 1);
    }
  }

  lemma {:induction false} BlocksInOrder(blocks: seq<Block>, i: nat, j: nat)
    requires i < j <= |blocks|
    ensures Offset(blocks, i) + blocks[i].size <= Offset(blocks, j)
  {
    if i + 1 < j {
      BlocksInOrder(blocks, i, j - 1);
    }
  }

  // A write beside a block's head keeps that head.
  lemma {:induction false} HeadsApart(s: seq<Byte>, t: seq<Byte>, blocks: seq<Block>, at: nat, len: nat, j: nat)
    requires j < |blocks| && BlockAt(s, Offset(blocks, j), blocks[j])
    requires OnlyChanged(s, t, at, len)
    requires at + len <= Offset(blocks, j) || Offset(blocks, j) + 4 <= at
    ensures BlockAt(t, Offset(blocks, j), blocks[j])
  {
    hide Offset;
    var o := Offset(blocks, j);
    assert t[o] == s[o] && t[o + 1] == s[o + 1] && t[o + 2] == s[o + 2] && t[o + 3] == s[o + 3];
  }

  lemma {:induction false} ReserveKeepsHead(s: seq<Byte>, t: seq<Byte>, blocks: seq<Block>, id: int, size: nat, j: nat)
    requires Chain(s, blocks) && Layout(blocks)
    requires size >= MIN_BLOCK && InPlace(blocks, id, size)
    requires var r := Reserve(blocks, id, size);
      r.Some? && OnlyChanged(s, t, r.value.0, 4) && BlockAt(t, r.value.0, Block(id, size)) && j < |r.value.1|
    ensures var after := Reserve(blocks, id, size).value.1; BlockAt(t, Offset(after, j), after[j])
  {
    hide BlockAt, OnlyChanged, IndexOf, Chain, DistinctIds;
    var at, after := Reserve(blocks, id, size).value.0, Reserve(blocks, id, size).value.1;
    var i := IndexOf(blocks, id);
    OffsetsAgree(blocks, after, j);
    hide Offset;
    if j < i {
      ChainMeets(s, blocks, j);
      BlocksInOrder(blocks, j, i);
      HeadsApart(s, t, blocks, at, 4, j);
    } else if j > i {
      ChainMeets(s, blocks, j);
      BlocksInOrder(blocks, i, j);
      HeadsApart(s, t, blocks, at, 4, j);
    }
  }

  // In place or at the end, the bytes again form the chain they should.
  lemma {:induction false} ReserveChains(s: seq<Byte>, t: seq<Byte>, blocks: seq<Block>, id: int, size: nat)
    requires Chain(s, blocks) && Layout(blocks)
    requires size >= MIN_BLOCK && InPlace(blocks, id, size)
    requires var r := Reserve(blocks, id, size);
      r.Some? && OnlyChanged(s, t, r.value.0, 4) && BlockAt(t, r.value.0, Block(id, size))
    ensures Chain(t, Reserve(blocks, id, size).value.1)
  {
    var at, after := Reserve(blocks, id, size).value.0, Reserve(blocks, id, size).value.1;
    forall j | 0 <= j < |after|
      ensures BlockAt(t, Offset(after, j), after[j])
    {
      ReserveKeepsHead(s, t, blocks, id, size, j);
    }
  }

  // A reuse moves the place where the receiver looks for the next block exactly when it
  // changes the size of a block that is not the last.
  lemma {:induction false} ReuseMovesTheNextBlock(blocks: seq<Block>, id: int, size: nat)
    requires IndexOf(blocks, id) < |blocks|
    ensures var i, after := IndexOf(blocks, id), Reserve(blocks, id, size).value.1;
      |after| == |blocks| &&
      ((forall j :: 0 <= j < |blocks| ==> Offset(after, j) == Offset(blocks, j)) <==> InPlace(blocks, id, size))
  {
    var i, after := IndexOf(blocks, id), Reserve(blocks, id, size).value.1;
    OffsetsAgree(blocks, after, i);
    assert Offset(after, i + 1) - Offset(blocks, i + 1) == size - blocks[i].size;
    if InPlace(blocks, id, size) {
      forall j | 0 <= j < |blocks|
        ensures Offset(after, j) == Offset(blocks, j)
      {
        OffsetsAgree(blocks, after, j);
      }
    }
  }

  // A new block stays within the limit or is refused, but the last block may grow past it.
  lemma {:induction false} ReserveWithinLimit(blocks: seq<Block>, id: int, size: nat)
    requires Layout(blocks) && End(blocks) <= MAX_ASGARD_PAYLOAD_BYTES && size >= MIN_BLOCK
    requires InPlace(blocks, id, size)
    ensures var i, r := IndexOf(blocks, id), Reserve(blocks, id, size);
      r.Some? ==>
        && Layout(r.value.1)
        && (End(r.value.1) <= MAX_ASGARD_PAYLOAD_BYTES <==>
              i == |blocks| || Offset(blocks, i) + size <= MAX_ASGARD_PAYLOAD_BYTES || i + 1 < |blocks|)
  {
    var r, i := Reserve(blocks, id, size), IndexOf(blocks, id);
    if r.Some? {
      var after := r.value.1;
      if i == |blocks| {
        OffsetsAgree(blocks, after, |blocks|);
      } else if i + 1 < |blocks| {
        OffsetsAgree(blocks, after, |blocks|);
      } else {
        OffsetsAgree(blocks, after, i);
      }
    }
  }

  // ---------- runs of reservations ----------

  function ReserveAll(blocks: seq<Block>, requests: seq<Block>): (after: seq<Block>)
    decreases |requests|
  {
    if requests == [] then blocks
    else
      var r := Reserve(blocks, requests[0].id, requests[0].size);
      ReserveAll(if r.Some? then r.value.1 else blocks, requests[1..])
  }

  ghost predicate Fits(blocks: seq<Block>, b: Block) {
    && b.size >= MIN_BLOCK && InPlace(blocks, b.id, b.size)
    && var i := IndexOf(blocks, b.id);
      i < |blocks| ==> Offset(blocks, i) + b.size <= MAX_ASGARD_PAYLOAD_BYTES
  }

  ghost predicate AllFit(blocks: seq<Block>, requests: seq<Block>)
    decreases |requests|
  {
    requests == [] ||
    (Fits(blocks, requests[0]) && AllFit(ReserveAll(blocks, requests[..1]), requests[1..]))
  }

  // Whatever is reserved in whatever order, the blocks stay distinct and within the limit,
  // and no block is lost, renamed or moved.
  lemma {:induction false} ReservationsKeepLayout(blocks: seq<Block>, requests: seq<Block>)
    requires Layout(blocks) && End(blocks) <= MAX_ASGARD_PAYLOAD_BYTES
    requires AllFit(blocks, requests)
    ensures var after := ReserveAll(blocks, requests);
      && Layout(after) && End(after) <= MAX_ASGARD_PAYLOAD_BYTES
      && |blocks| <= |after|
      && (forall i :: 0 <= i < |blocks| ==> after[i].id == blocks[i].id && Offset(after, i) == Offset(blocks, i))
    decreases |requests|
  {
    if requests != [] {
      var first := requests[0];
      ReserveWithinLimit(blocks, first.id, first.size);
      var r := Reserve(blocks, first.id, first.size);
      var next := if r.Some? then r.value.1 else blocks;
      assert ReserveAll(blocks, requests[..1]) == ReserveAll(next, []) == next;
      forall i | 0 <= i < |blocks|
        ensures next[i].id == blocks[i].id && Offset(next, i) == Offset(blocks, i)
      {
        OffsetsAgree(blocks, next, i);
      }
      ReservationsKeepLayout(next, requests[1..]);
    }
  }

  // ---------- the payload in memory ----------

  class AsgardPayload {
    var protocolsIncluded: nat
    const protoData: array<Byte>

    ghost predicate Valid() {
      protoData.Length == PROTO_DATA_BYTES
    }

    ghost predicate Holds(blocks: seq<Block>)
      reads this, protoData
    {
      protocolsIncluded == |blocks| && Chain(protoData[..], blocks)
    }

    constructor ()
      ensures Valid() && fresh(protoData) && Holds([])
    {
      protocolsIncluded := 0;
      protoData := new Byte[PROTO_DATA_BYTES](_ => 0);
    }

    // The search loop: how many blocks were passed, and where the next one starts.
    method FindProto(instanceId: int, ghost blocks: seq<Block>) returns (i: nat, offset: nat)
      requires Valid() && Holds(blocks)
      ensures i == IndexOf(blocks, instanceId) && offset == Offset(blocks, i)
    {
      i, offset := 0, 0;
      while i < protocolsIncluded
        invariant i <= IndexOf(blocks, instanceId)
        invariant offset == Offset(blocks, i)
      {
        assert BlockAt(protoData[..], Offset(blocks, i), blocks[i]);
        if GetU16(protoData[..], offset) == instanceId {
          return;
        }
        offset := offset + GetU16(protoData[..], offset + 2);
        i := i + 1;
      }
    }

    method WriteHead(at: nat, instanceId: int, protoSize: int)
      requires Valid() && at + 4 <= PROTO_DATA_BYTES && IsUint16(instanceId) && IsUint16(protoSize)
      modifies protoData
      ensures BlockAt(protoData[..], at, Block(instanceId, protoSize))
      ensures OnlyChanged(old(protoData[..]), protoData[..], at, 4)
    {
      PutU16(protoData, at, instanceId);
      PutU16(protoData, at + 2, protoSize);
    }

    // asgard_reserve_proto; None is the NULL pointer.
    method ReserveProto(instanceId: int, protoSize: int, ghost blocks: seq<Block>) returns (at: Option<nat>)
      requires Valid() && Holds(blocks) && Layout(blocks)
      requires IsUint16(instanceId) && IsUint16(protoSize) && protoSize >= MIN_BLOCK
      modifies this, protoData
      ensures var r := Reserve(blocks, instanceId, protoSize);
        if r.None? then at == None && Holds(blocks) && protoData[..] == old(protoData[..])
        else
          && at == Some(r.value.0)
          && protocolsIncluded == |r.value.1|
          && BlockAt(protoData[..], r.value.0, Block(instanceId, protoSize))
          && OnlyChanged(old(protoData[..]), protoData[..], r.value.0, 4)
          && (InPlace(blocks, instanceId, protoSize) ==> Holds(r.value.1))
    {
      var i, offset := FindProto(instanceId, blocks);
      if i == protocolsIncluded {
        protocolsIncluded := protocolsIncluded + 1;
        if offset + protoSize > MAX_ASGARD_PAYLOAD_BYTES {
          protocolsIncluded := protocolsIncluded - 1;
          return None;
        }
      } else {
        assert BlockAt(protoData[..], offset, blocks[i]);
      }
      ghost var before := protoData[..];
      WriteHead(offset, instanceId, protoSize);
      if InPlace(blocks, instanceId, protoSize) {
        hide BlockAt, OnlyChanged, InPlace;
        ReserveChains(before, protoData[..], blocks, instanceId, protoSize);
      }
      return Some(offset);
    }
  }

  // ---------- the receiving walk ----------

  // An instance id met at an offset, and the offset of the data its handler is given.
  datatype Visit = Visit(id: int, at: nat, handed: Option<nat>)

  const MAX_INSTANCES := 4

  function VisitOf(b: Block, at: nat, known: set<int>): Visit {
    Visit(b.id, at, if b.id in known then Some(0) else None)
  }

  ghost function Visits(blocks: seq<Block>, count: nat, known: set<int>): (v: seq<Visit>)
    requires count <= |blocks|
    ensures |v| == count
  {
    seq(count, i requires 0 <= i < count => VisitOf(blocks[i], Offset(blocks, i), known))
  }

  // cur_bcnt once the walk has passed `cur` bytes.
  ghost function BytesLeft(bcnt: nat, cur: nat): nat {
    ToU32(bcnt as int - cur)
  }

  lemma LeftAfter(bcnt: nat, cur: nat, size: nat)
    ensures ToU32(BytesLeft(bcnt, cur) as int - size) == BytesLeft(bcnt, cur + size)
  {
  }

  lemma NothingLeft(bcnt: nat, cur: nat)
    requires bcnt < UINT32_SIZE && cur < UINT32_SIZE
    ensures BytesLeft(bcnt, 0) == bcnt
    ensures BytesLeft(bcnt, cur) == 0 <==> bcnt == cur
  {
  }

  // The byte count names none of the first `count` block starts.
  ghost predicate BoundariesMissed(blocks: seq<Block>, count: nat, bcnt: nat) {
    forall i :: 0 <= i < count && i <= |blocks| ==> Offset(blocks, i) != bcnt
  }

  lemma {:induction false} OneMoreVisit(blocks: seq<Block>, i: nat, known: set<int>)
    requires i < |blocks|
    ensures Visits(blocks, i + 1, known) == Visits(blocks, i, known) + [VisitOf(blocks[i], Offset(blocks, i), known)]
  {
    hide Offset, VisitOf;
    var longer := Visits(blocks, i, known) + [VisitOf(blocks[i], Offset(blocks, i), known)];
    forall k | 0 <= k < i + 1
      ensures Visits(blocks, i + 1, known)[k] == longer[k]
    {
    }
  }

  lemma {:induction false} NextVisit(blocks: seq<Block>, i: nat, known: set<int>, bcnt: nat)
    requires i < |blocks|
    ensures Offset(blocks, i + 1) == Offset(blocks, i) + blocks[i].size
    ensures Visits(blocks, i + 1, known) == Visits(blocks, i, known) + [VisitOf(blocks[i], Offset(blocks, i), known)]
    ensures BoundariesMissed(blocks, i, bcnt) && Offset(blocks, i) != bcnt ==> BoundariesMissed(blocks, i + 1, bcnt)
  {
    hide Visits, VisitOf;
    OneMoreVisit(blocks, i, known);
  }

  // No block of a chain starts at its end.
  lemma {:induction false} StartsBeforeEnd(blocks: seq<Block>, i: nat)
    requires Layout(blocks) && i < |blocks|
    ensures Offset(blocks, i) < End(blocks)
  {
    BlocksInOrder(blocks, i, |blocks|);
  }

  lemma {:induction false} OffsetSmall(s: seq<Byte>, blocks: seq<Block>, i: nat)
    requires Chain(s, blocks) && i <= |blocks| && i <= MAX_INSTANCES
    ensures Offset(blocks, i) < UINT32_SIZE && Offset(blocks, i) <= i * UINT16_SIZE
  {
    if i > 0 {
      OffsetSmall(s, blocks, i - 1);
      ChainMeets(s, blocks, i - 1);
    }
  }

  lemma NoVisits(blocks: seq<Block>, known: set<int>)
    ensures Visits(blocks, 0, known) == [] && Offset(blocks, 0) == 0
    ensures forall bcnt: nat :: BoundariesMissed(blocks, 0, bcnt)
  {
  }

  // The loop of handle_sub_payloads.
  method WalkBlocks(s: seq<Byte>, instances: nat, bcnt: nat, known: set<int>, ghost blocks: seq<Block>)
    returns (visited: seq<Visit>)
    requires Chain(s, blocks) && instances <= |blocks| && instances <= MAX_INSTANCES && bcnt < UINT32_SIZE
    ensures |visited| <= instances && visited == Visits(blocks, |visited|, known)
    ensures BoundariesMissed(blocks, |visited|, bcnt)
    ensures |visited| < instances ==> Offset(blocks, |visited|) == bcnt
  {
    visited := [];
    var cur, curBcnt, i := 0, bcnt, 0;
    NoVisits(blocks, known);
    NothingLeft(bcnt, 0);
    hide *;
    while i < instances
      invariant i <= instances && |visited| == i && visited == Visits(blocks, i, known)
      invariant cur == Offset(blocks, i)
      invariant curBcnt == BytesLeft(bcnt, cur)
      invariant BoundariesMissed(blocks, i, bcnt)
    {
      OffsetSmall(s, blocks, i);
      NothingLeft(bcnt, cur);
      if curBcnt <= 0 {
        return;
      }
      ChainMeets(s, blocks, i);
      var head := Block(GetU16(s, cur), GetU16(s, cur + 2));
      assert head == blocks[i];
      NextVisit(blocks, i, known, bcnt);
      LeftAfter(bcnt, cur, head.size);
      visited := visited + [VisitOf(head, cur, known)];
      curBcnt := ToU32(curBcnt as int - head.size);
      cur := cur + head.size;
      i := i + 1;
    }
  }

  // The walk meets the blocks in order. It stops early only where the claimed byte count
  // falls exactly on a block boundary, so a count that covers the chain lets it meet all
  // of up to four blocks. It hands every known handler the start of the payload instead of
  // its own block.
  method HandleSubPayloads(s: seq<Byte>, instances: nat, bcnt: nat, known: set<int>, ghost blocks: seq<Block>)
    returns (visited: seq<Visit>)
    requires Chain(s, blocks) && instances <= |blocks| && bcnt < UINT32_SIZE
    ensures if instances > MAX_INSTANCES then visited == []
      else
        && |visited| <= instances && visited == Visits(blocks, |visited|, known)
        && BoundariesMissed(blocks, |visited|, bcnt)
        && (|visited| < instances ==> Offset(blocks, |visited|) == bcnt)
    ensures instances == |blocks| <= MAX_INSTANCES && Layout(blocks) && End(blocks) <= bcnt ==>
      visited == Visits(blocks, |blocks|, known)
  {
    if instances > MAX_INSTANCES {
      return [];
    }
    visited := WalkBlocks(s, instances, bcnt, known, blocks);
    hide Visits, Layout, Offset, Chain, BoundariesMissed;
    if |visited| < instances && Layout(blocks) {
      StartsBeforeEnd(blocks, |visited|);
    }
  }

  // So the handler of every known block is called, of no other, and always with the start of
  // the payload; it is given its own block exactly when that comes first in the packet.
  lemma {:induction false} HandedOwnBlockIff(blocks: seq<Block>, known: set<int>, i: nat)
    requires Layout(blocks) && i < |blocks|
    ensures var v := Visits(blocks, |blocks|, known)[i];
      && v.id == blocks[i].id && v.at == Offset(blocks, i)
      && v.handed == (if blocks[i].id in known then Some(0) else None)
      && (v.handed == Some(v.at) <==> blocks[i].id in known && i == 0)
  {
    assert Visits(blocks, |blocks|, known)[i] == VisitOf(blocks[i], Offset(blocks, i), known);
    assert Offset(blocks, 0) == 0 && blocks[0].size >= MIN_BLOCK;
    hide Visits, Offset, Layout;
    if i > 0 {
      BlocksInOrder(blocks, 0, i);
    }
  }

  // ---------- from reservation to walk ----------

  ghost predicate InHead(blocks: seq<Block>, k: int) {
    exists i :: 0 <= i < |blocks| && Offset(blocks, i) <= k < Offset(blocks, i) + 4
  }

  // No head of the shorter chain moves.
  ghost predicate HeadsStay(blocks: seq<Block>, after: seq<Block>) {
    |blocks| <= |after| && forall i :: 0 <= i < |blocks| ==> Offset(after, i) == Offset(blocks, i)
  }

  lemma {:induction false} ReserveOnce(blocks: seq<Block>, b: Block)
    requires Layout(blocks) && End(blocks) <= MAX_ASGARD_PAYLOAD_BYTES && Fits(blocks, b)
    ensures var r := Reserve(blocks, b.id, b.size);
      r.Some? ==>
        && Layout(r.value.1) && End(r.value.1) <= MAX_ASGARD_PAYLOAD_BYTES && HeadsStay(blocks, r.value.1)
        && IndexOf(blocks, b.id) < |r.value.1| && r.value.0 == Offset(r.value.1, IndexOf(blocks, b.id))
  {
    ReserveWithinLimit(blocks, b.id, b.size);
    var r := Reserve(blocks, b.id, b.size);
    if r.Some? {
      OffsetsAgree(blocks, r.value.1, IndexOf(blocks, b.id));
      forall i | 0 <= i < |blocks|
        ensures Offset(r.value.1, i) == Offset(blocks, i)
      {
        OffsetsAgree(blocks, r.value.1, i);
      }
    }
  }

  lemma {:induction false} HeadsStayInside(blocks: seq<Block>, after: seq<Block>, k: int)
    requires HeadsStay(blocks, after) && InHead(blocks, k)
    ensures InHead(after, k)
  {
    var i :| 0 <= i < |blocks| && Offset(blocks, i) <= k < Offset(blocks, i) + 4;
    assert Offset(after, i) == Offset(blocks, i);
  }

  // The bytes that are in no head are as they were.
  ghost predicate OnlyHeadsChanged(s: seq<Byte>, t: seq<Byte>, blocks: seq<Block>) {
    |s| == |t| && forall k :: 0 <= k < |s| && !InHead(blocks, k) ==> t[k] == s[k]
  }

  lemma {:induction false} HeadWritten(s: seq<Byte>, t: seq<Byte>, u: seq<Byte>,
                                       blocks: seq<Block>, after: seq<Block>, i: nat)
    requires OnlyHeadsChanged(s, t, blocks) && HeadsStay(blocks, after)
    requires i < |after| && OnlyChanged(t, u, Offset(after, i), 4)
    ensures OnlyHeadsChanged(s, u, after)
  {
    forall k | 0 <= k < |s| && !InHead(after, k)
      ensures u[k] == s[k]
    {
      if InHead(blocks, k) {
        HeadsStayInside(blocks, after, k);
      }
      assert !(Offset(after, i) <= k < Offset(after, i) + 4);
    }
  }

  // pre_hb_setup reserves a block for one protocol instance after the other. The payload
  // ends up holding exactly the blocks reserved, and no other byte is written.
  method ReserveSequence(spay: AsgardPayload, requests: seq<Block>, ghost blocks: seq<Block>)
    requires spay.Valid() && spay.Holds(blocks) && Layout(blocks) && End(blocks) <= MAX_ASGARD_PAYLOAD_BYTES
    requires AllFit(blocks, requests)
    requires forall i :: 0 <= i < |requests| ==> IsUint16(requests[i].id) && IsUint16(requests[i].size)
    modifies spay, spay.protoData
    ensures spay.Holds(ReserveAll(blocks, requests)) && Layout(ReserveAll(blocks, requests))
    ensures OnlyHeadsChanged(old(spay.protoData[..]), spay.protoData[..], ReserveAll(blocks, requests))
  {
    var i := 0;
    ghost var current, start := blocks, spay.protoData[..];
    assert OnlyHeadsChanged(start, start, blocks);
    assert requests[0..] == requests;
    hide *;
    while i < |requests|
      invariant i <= |requests| && spay.Holds(current)
      invariant Layout(current) && End(current) <= MAX_ASGARD_PAYLOAD_BYTES
      invariant AllFit(current, requests[i..])
      invariant ReserveAll(current, requests[i..]) == ReserveAll(blocks, requests)
      invariant OnlyHeadsChanged(start, spay.protoData[..], current)
    {
      ghost var b, before := requests[i], spay.protoData[..];
      RestOf(requests, i);
      NextRequest(current, requests[i..]);
      ReserveOnce(current, b);
      ghost var r := Reserve(current, b.id, b.size);
      var _ := spay.ReserveProto(requests[i].id, requests[i].size, current);
      if r.Some? {
        HeadWritten(start, before, spay.protoData[..], current, r.value.1, IndexOf(current, b.id));
        current := r.value.1;
      }
      i := i + 1;
    }
    NoMoreRequests(current, requests[i..]);
  }

  lemma {:induction false} RestOf(requests: seq<Block>, i: nat)
    requires i < |requests|
    ensures requests[i..] != [] && requests[i..][0] == requests[i] && requests[i..][1..] == requests[i + 1..]
  {
  }

  lemma {:induction false} NoMoreRequests(blocks: seq<Block>, requests: seq<Block>)
    requires requests == []
    ensures ReserveAll(blocks, requests) == blocks
  {
  }

  // The first request is granted or not, and the rest go on from there.
  lemma {:induction false} NextRequest(blocks: seq<Block>, requests: seq<Block>)
    requires requests != [] && AllFit(blocks, requests)
    ensures var r := Reserve(blocks, requests[0].id, requests[0].size);
      var next := if r.Some? then r.value.1 else blocks;
      && Fits(blocks, requests[0]) && InPlace(blocks, requests[0].id, requests[0].size) && requests[0].size >= MIN_BLOCK
      && AllFit(next, requests[1..]) && ReserveAll(next, requests[1..]) == ReserveAll(blocks, requests)
  {
    var r := Reserve(blocks, requests[0].id, requests[0].size);
    var next := if r.Some? then r.value.1 else blocks;
    assert ReserveAll(blocks, requests[..1]) == ReserveAll(next, []) == next;
  }

  // Sender and receiver together: the walk over a freshly filled payload meets exactly the
  // blocks that were reserved, in order and where they were reserved.
  method Exchange(requests: seq<Block>, bcnt: nat, known: set<int>) returns (visited: seq<Visit>)
    requires AllFit([], requests) && bcnt < UINT32_SIZE
    requires forall i :: 0 <= i < |requests| ==> IsUint16(requests[i].id) && IsUint16(requests[i].size)
    requires End(ReserveAll([], requests)) <= bcnt
    ensures var blocks := ReserveAll([], requests);
      visited == if |blocks| <= MAX_INSTANCES then Visits(blocks, |blocks|, known) else []
  {
    var spay := new AsgardPayload();
    ReserveSequence(spay, requests, []);
    visited := HandleSubPayloads(spay.protoData[..], spay.protocolsIncluded, bcnt, known, ReserveAll([], requests));
  }

  // ---------- sending a message ----------

  const MAX_AE_ENTRIES_PER_PKT := 100

  lemma {:induction false} BodyKeepsHead(s: seq<Byte>, t: seq<Byte>, blocks: seq<Block>, i: nat, j: nat)
    requires Chain(s, blocks) && i < |blocks| && j < |blocks|
    requires blocks[i].size >= MIN_BLOCK && blocks[j].size >= MIN_BLOCK
    requires OnlyChanged(s, t, Offset(blocks, i) + 4, blocks[i].size - 4)
    ensures BlockAt(t, Offset(blocks, j), blocks[j])
  {
    hide OnlyChanged, BlockAt, Offset, Chain;
    ChainMeets(s, blocks, j);
    if j < i {
      BlocksInOrder(blocks, j, i);
    } else if i < j {
      BlocksInOrder(blocks, i, j);
    }
    HeadsApart(s, t, blocks, Offset(blocks, i) + 4, blocks[i].size - 4, j);
  }

  // Writing inside one block keeps every head.
  lemma {:induction false} BodyKeepsChain(s: seq<Byte>, t: seq<Byte>, blocks: seq<Block>, i: nat)
    requires Chain(s, blocks) && Layout(blocks) && i < |blocks|
    requires OnlyChanged(s, t, Offset(blocks, i) + 4, blocks[i].size - 4)
    ensures Chain(t, blocks)
  {
    hide OnlyChanged, BlockAt, Offset;
    forall j | 0 <= j < |blocks|
      ensures BlockAt(t, Offset(blocks, j), blocks[j])
    {
      BodyKeepsHead(s, t, blocks, i, j);
    }
  }

  // A granted block may end past proto_data, which is two bytes shorter than the limit.
  ghost predicate InsideBuffer(blocks: seq<Block>, id: int, size: nat) {
    var r := Reserve(blocks, id, size);
    r.Some? ==> r.value.0 + size <= PROTO_DATA_BYTES
  }

  // It stays inside exactly when a new block does not end at byte 1417 or 1418 and a last
  // block is not grown past the buffer.
  lemma {:induction false} GrantedInsideBuffer(blocks: seq<Block>, id: int, size: nat)
    requires Layout(blocks) && End(blocks) <= MAX_ASGARD_PAYLOAD_BYTES && size >= MIN_BLOCK
    requires InPlace(blocks, id, size)
    ensures var i := IndexOf(blocks, id);
      InsideBuffer(blocks, id, size) <==>
        if i == |blocks| then End(blocks) + size != 1417 && End(blocks) + size != 1418
        else i + 1 < |blocks| || Offset(blocks, i) + size <= PROTO_DATA_BYTES
  {
    var i := IndexOf(blocks, id);
    if i + 1 < |blocks| {
      BlocksInOrder(blocks, i, i + 1);
      BlocksInOrder(blocks, i + 1, |blocks|);
    }
  }

  // Any message but an APPEND: reserved next to other blocks it is read back as sent, and
  // those blocks keep their place and their bytes; in a full payload nothing happens.
  method SendLe(spay: AsgardPayload, instanceId: int, b: Body, ghost blocks: seq<Block>) returns (at: Option<nat>)
    requires spay.Valid() && spay.Holds(blocks) && Layout(blocks)
    requires IsUint16(instanceId) && !b.Append? && FieldsFit(b)
    requires InPlace(blocks, instanceId, ASGARD_PROTO_CON_PAYLOAD_SZ)
    requires InsideBuffer(blocks, instanceId, ASGARD_PROTO_CON_PAYLOAD_SZ)
    modifies spay, spay.protoData
    ensures var r := Reserve(blocks, instanceId, ASGARD_PROTO_CON_PAYLOAD_SZ);
      if r.None? then at == None && spay.Holds(blocks) && spay.protoData[..] == old(spay.protoData[..])
      else
        && at == Some(r.value.0) && spay.Holds(r.value.1)
        && OnlyChanged(old(spay.protoData[..]), spay.protoData[..], at.value, ASGARD_PROTO_CON_PAYLOAD_SZ)
        && at.value + ASGARD_PROTO_CON_PAYLOAD_SZ <= PROTO_DATA_BYTES
        && GetU16(spay.protoData[..], at.value + 4) != APPEND
        && DecodeBody(spay.protoData[..], at.value) == Some(b)
  {
    ghost var r := Reserve(blocks, instanceId, ASGARD_PROTO_CON_PAYLOAD_SZ);
    ghost var i := IndexOf(blocks, instanceId);
    SlotFits(blocks, instanceId);
    assert r.Some? ==> r.value.0 + ASGARD_PROTO_CON_PAYLOAD_SZ <= PROTO_DATA_BYTES;
    hide *;
    at := spay.ReserveProto(instanceId, ASGARD_PROTO_CON_PAYLOAD_SZ, blocks);
    if at == None {
      return;
    }
    ghost var reserved := spay.protoData[..];
    WriteLe(spay.protoData, at.value, b);
    BodyKeepsChain(reserved, spay.protoData[..], r.value.1, i);
    ChangesAddUp(old(spay.protoData[..]), reserved, spay.protoData[..], at.value, 4, at.value + 4, 18);
  }

  lemma {:induction false} SlotFits(blocks: seq<Block>, id: int)
    requires Layout(blocks)
    ensures var r, i := Reserve(blocks, id, ASGARD_PROTO_CON_PAYLOAD_SZ), IndexOf(blocks, id);
      r.Some? ==>
        && Layout(r.value.1) && i < |r.value.1|
        && r.value.0 == Offset(r.value.1, i) && r.value.1[i].size == ASGARD_PROTO_CON_PAYLOAD_SZ
  {
    var r, i := Reserve(blocks, id, ASGARD_PROTO_CON_PAYLOAD_SZ), IndexOf(blocks, id);
    if r.Some? {
      OffsetsAgree(blocks, r.value.1, i);
    }
  }

  // ---------- from a message to its handler ----------

  lemma {:induction false} KeepsFirst(blocks: seq<Block>, requests: seq<Block>)
    requires blocks != [] && AllFit(blocks, requests)
    requires forall k :: 0 <= k < |requests| ==> requests[k].id != blocks[0].id
    ensures ReserveAll(blocks, requests) != [] && ReserveAll(blocks, requests)[0] == blocks[0]
    decreases |requests|
  {
    if requests != [] {
      NextRequest(blocks, requests);
      var r := Reserve(blocks, requests[0].id, requests[0].size);
      KeepsFirst(if r.Some? then r.value.1 else blocks, requests[1..]);
    }
  }

  // Writing heads leaves the inside of the first block alone.
  lemma {:induction false} FirstBodyUntouched(s: seq<Byte>, t: seq<Byte>, blocks: seq<Block>, k: nat)
    requires OnlyHeadsChanged(s, t, blocks) && blocks != [] && 4 <= k < blocks[0].size && k < |s|
    ensures t[k] == s[k]
  {
    if InHead(blocks, k) {
      var i :| 0 <= i < |blocks| && Offset(blocks, i) <= k < Offset(blocks, i) + 4;
      if i > 0 {
        BlocksInOrder(blocks, 0, i);
      }
    }
  }

  lemma SameMessage(s: seq<Byte>, t: seq<Byte>)
    requires |s| == |t| >= ASGARD_PROTO_CON_PAYLOAD_SZ
    requires forall k :: 4 <= k < ASGARD_PROTO_CON_PAYLOAD_SZ ==> t[k] == s[k]
    requires GetU16(s, 4) != APPEND
    ensures GetU16(t, 4) != APPEND && DecodeBody(t, 0) == DecodeBody(s, 0)
  {
  }

  // A message reserved before anything else in its packet reaches its handler: whatever
  // other protocols reserve behind it, the walk meets it first and hands its handler the
  // very bytes that decode as the message.
  method ExchangeLe(instanceId: int, b: Body, requests: seq<Block>, bcnt: nat, known: set<int>)
    returns (visited: seq<Visit>, s: seq<Byte>)
    requires IsUint16(instanceId) && !b.Append? && FieldsFit(b) && bcnt < UINT32_SIZE
    requires AllFit([Block(instanceId, ASGARD_PROTO_CON_PAYLOAD_SZ)], requests)
    requires forall i :: 0 <= i < |requests| ==>
      IsUint16(requests[i].id) && IsUint16(requests[i].size) && requests[i].id != instanceId
    requires End(ReserveAll([Block(instanceId, ASGARD_PROTO_CON_PAYLOAD_SZ)], requests)) <= bcnt
    ensures var blocks := ReserveAll([Block(instanceId, ASGARD_PROTO_CON_PAYLOAD_SZ)], requests);
      && visited == (if |blocks| <= MAX_INSTANCES then Visits(blocks, |blocks|, known) else [])
      && (visited != [] && instanceId in known ==> visited[0] == Visit(instanceId, 0, Some(0)))
      && |s| == PROTO_DATA_BYTES && GetU16(s, 4) != APPEND && DecodeBody(s, 0) == Some(b)
  {
    var spay := new AsgardPayload();
    ghost var first := [Block(instanceId, ASGARD_PROTO_CON_PAYLOAD_SZ)];
    assert [] + first == first && Offset(first, 0) == 0 && End(first) == ASGARD_PROTO_CON_PAYLOAD_SZ;
    assert Reserve([], instanceId, ASGARD_PROTO_CON_PAYLOAD_SZ) == Some((0, first));
    ghost var blocks := ReserveAll(first, requests);
    KeepsFirst(first, requests);
    assert Layout(first) && blocks[0] == first[0];
    hide *;
    var at := SendLe(spay, instanceId, b, []);
    ghost var sent := spay.protoData[..];
    ReserveSequence(spay, requests, first);
    s := spay.protoData[..];
    forall k | 4 <= k < ASGARD_PROTO_CON_PAYLOAD_SZ
      ensures s[k] == sent[k]
    {
      FirstBodyUntouched(sent, s, blocks, k);
    }
    SameMessage(sent, s);
    visited := HandleSubPayloads(s, spay.protocolsIncluded, bcnt, known, blocks);
    FirstVisit(blocks, instanceId, known);
  }

  lemma {:induction false} FirstVisit(blocks: seq<Block>, id: int, known: set<int>)
    requires blocks != [] && blocks[0].id == id
    ensures id in known ==> Visits(blocks, |blocks|, known)[0] == Visit(id, 0, Some(0))
  {
  }

  // ---------- an APPEND and its neighbours ----------

  // What the ten bytes an APPEND writes past its reservation put where the next block's id
  // and size are: the end of the last command but one, or the upper half of the count, and
  // the start of the last command.
  function OverhangId(entries: seq<Chunk>): int
    requires |entries| > 0 && forall k :: 0 <= k < |entries| ==> |entries[k].data| == AE_ENTRY_SIZE
  {
    if |entries| == 1 then 0 else entries[|entries| - 2].data[6] + 256 * entries[|entries| - 2].data[7]
  }

  function OverhangSize(entries: seq<Chunk>): int
    requires |entries| > 0 && forall k :: 0 <= k < |entries| ==> |entries[k].data| == AE_ENTRY_SIZE
  {
    entries[|entries| - 1].data[0] + 256 * entries[|entries| - 1].data[1]
  }

  // The APPEND is in the last block, or what it writes over the next head is that head.
  ghost predicate SurvivesAppend(blocks: seq<Block>, i: nat, entries: seq<Chunk>)
    requires |entries| > 0 && forall k :: 0 <= k < |entries| ==> |entries[k].data| == AE_ENTRY_SIZE
  {
    i + 1 >= |blocks| || (blocks[i + 1].id == OverhangId(entries) && blocks[i + 1].size == OverhangSize(entries))
  }

  lemma EntryBytes(t: seq<Byte>, at: nat, count: nat, k: nat)
    requires k < count && at + AE_ENTRY_SIZE * count <= |t|
    ensures var c, o := DecodeEntries(t, at, count)[k], at + AE_ENTRY_SIZE * k;
      |c.data| == AE_ENTRY_SIZE && forall b :: 0 <= b < AE_ENTRY_SIZE ==> c.data[b] == t[o + b]
  {
  }

  // Ten bytes past the reserved 20 + 8n: two end the entries but the last, or the count,
  // and eight are the last command.
  lemma {:induction false} OverhangBytes(t: seq<Byte>, base: nat)
    requires Readable(t, base) && 0 < GetU32(t, base + 26) < UINT16_SIZE
    ensures var entries := DecodeAppend(t, base).entries;
      var next := base + ASGARD_PROTO_CON_AE_BASE_SZ + |entries| * AE_ENTRY_SIZE;
      && |entries| > 0 && (forall k :: 0 <= k < |entries| ==> |entries[k].data| == AE_ENTRY_SIZE)
      && next + 10 <= |t|
      && GetU16(t, next) == OverhangId(entries) && GetU16(t, next + 2) == OverhangSize(entries)
      && t[next + 2..next + 10] == entries[|entries| - 1].data
  {
    var count := GetU32(t, base + 26);
    var entries := DecodeAppend(t, base).entries;
    forall k | 0 <= k < count
      ensures |entries[k].data| == AE_ENTRY_SIZE
    {
      EntryBytes(t, base + AE_ENTRIES_AT, count, k);
    }
    EntryBytes(t, base + AE_ENTRIES_AT, count, count - 1);
    if count > 1 {
      EntryBytes(t, base + AE_ENTRIES_AT, count, count - 2);
    }
  }

  lemma {:induction false} OverhangSparesOthers(s: seq<Byte>, t: seq<Byte>, blocks: seq<Block>, i: nat, j: nat)
    requires Chain(s, blocks) && Layout(blocks) && i < |blocks| && j < |blocks| && j != i + 1
    requires OnlyChanged(s, t, Offset(blocks, i) + 4, blocks[i].size + 6)
    ensures BlockAt(t, Offset(blocks, j), blocks[j])
  {
    hide Offset, OnlyChanged, BlockAt, Chain;
    ChainMeets(s, blocks, j);
    if j < i {
      BlocksInOrder(blocks, j, i);
    } else if i < j {
      BlocksInOrder(blocks, i, i + 1);
      BlocksInOrder(blocks, i + 1, j);
    }
    HeadsApart(s, t, blocks, Offset(blocks, i) + 4, blocks[i].size + 6, j);
  }

  // So the chain holds afterwards exactly when the head behind the APPEND still reads as it
  // should.
  lemma {:induction false} ChainAfterAppend(s: seq<Byte>, t: seq<Byte>, blocks: seq<Block>, i: nat)
    requires Chain(s, blocks) && Layout(blocks) && i < |blocks|
    requires OnlyChanged(s, t, Offset(blocks, i) + 4, blocks[i].size + 6)
    ensures Chain(t, blocks) <==> i + 1 >= |blocks| || BlockAt(t, Offset(blocks, i + 1), blocks[i + 1])
  {
    hide OnlyChanged, BlockAt, Offset;
    if i + 1 >= |blocks| || BlockAt(t, Offset(blocks, i + 1), blocks[i + 1]) {
      forall j | 0 <= j < |blocks|
        ensures BlockAt(t, Offset(blocks, j), blocks[j])
      {
        if j != i + 1 {
          OverhangSparesOthers(s, t, blocks, i, j);
        }
      }
    }
  }

  lemma {:induction false} AppendLeavesChain(s: seq<Byte>, t: seq<Byte>, blocks: seq<Block>, i: nat,
                                             base: nat, entries: seq<Chunk>)
    requires Chain(s, blocks) && Layout(blocks) && i < |blocks| && base == Offset(blocks, i)
    requires OnlyChanged(s, t, base + 4, blocks[i].size + 6)
    requires Readable(t, base) && DecodeAppend(t, base).entries == entries && 0 < |entries| < UINT16_SIZE
    requires blocks[i].size == ASGARD_PROTO_CON_AE_BASE_SZ + |entries| * AE_ENTRY_SIZE
    ensures base + blocks[i].size + 10 <= |t|
    ensures t[base + blocks[i].size + 2..base + blocks[i].size + 10] == entries[|entries| - 1].data
    ensures forall k :: 0 <= k < |entries| ==> |entries[k].data| == AE_ENTRY_SIZE
    ensures Chain(t, blocks) <==> SurvivesAppend(blocks, i, entries)
  {
    assert Offset(blocks, i + 1) == base + blocks[i].size;
    hide GetU16, GetU32, OverhangId, OverhangSize, Chain, OnlyChanged, Readable, DecodeAppend, Layout, Offset;
    AppendCountIs(t, base, |entries|);
    OverhangBytes(t, base);
    ChainAfterAppend(s, t, blocks, i);
  }

  // set_ae_data in a block of a shared payload writes ten bytes past the block, and the
  // other blocks are still found exactly when the APPEND is in the last one or the two
  // bytes of id and the two of size it writes behind it are the ones that were there.
  method AppendIntoChain(spay: AsgardPayload, base: nat, term: int, nodeId: int, log: SmLog,
                         first: int, prevTerm: int, count: nat, ghost blocks: seq<Block>, ghost i: nat)
    requires spay.Valid() && spay.Holds(blocks) && Layout(blocks) && log.Valid()
    requires i < |blocks| && base == Offset(blocks, i) && 0 < count < UINT16_SIZE
    requires blocks[i].size == ASGARD_PROTO_CON_AE_BASE_SZ + count * AE_ENTRY_SIZE
    requires base + AE_ENTRIES_AT + count * AE_ENTRY_SIZE <= PROTO_DATA_BYTES
    requires IsInt32(term) && IsInt32(nodeId) && IsInt32(prevTerm) && IsInt32(first - 1) && IsInt32(log.commitIdx)
    requires first + count - 1 <= log.lastIdx && ChunksFit(log.entries[..], first, count)
    modifies spay.protoData
    ensures var entries := Chunks(log.entries[..], first, count);
      && Readable(spay.protoData[..], base) && GetU16(spay.protoData[..], base + 4) == APPEND
      && DecodeAppend(spay.protoData[..], base)
        == Append(term, nodeId, first - 1, prevTerm, log.commitIdx, entries, blocks[i].size)
      && spay.protoData[base + blocks[i].size + 2..base + blocks[i].size + 10] == entries[count - 1].data
      && (forall k :: 0 <= k < count ==> |entries[k].data| == AE_ENTRY_SIZE)
      && (spay.Holds(blocks) <==> SurvivesAppend(blocks, i, entries))
    ensures OnlyChanged(old(spay.protoData[..]), spay.protoData[..], base + 4, blocks[i].size + 6)
  {
    ghost var before := spay.protoData[..];
    ChainMeets(before, blocks, i);
    SetAeData(spay.protoData, base, term, nodeId, first, prevTerm, log.commitIdx, log, count);
    hide GetU16, GetU32, Chain, OnlyChanged, Readable, DecodeAppend, Layout, Offset, SurvivesAppend, Chunks;
    AppendLeavesChain(before, spay.protoData[..], blocks, i, base, Chunks(log.entries[..], first, count));
  }

  lemma {:induction false} AppendCountIs(t: seq<Byte>, base: nat, count: nat)
    requires Readable(t, base) && |DecodeAppend(t, base).entries| == count
    ensures GetU32(t, base + 26) == count
  {
  }

  // An APPEND in a packet of its own, as the leader always sends it: its block is the last
  // one, and what the follower decodes is the message the protocol model sends.
  method SendAppend(spay: AsgardPayload, instanceId: int, term: int, nodeId: int, log: SmLog,
                    first: int, prevTerm: int, count: nat, ghost n: Node)
    requires spay.Valid() && spay.Holds([]) && log.Valid()
    requires n.Shaped() && n.log == log.View() && n.term == term && n.id == nodeId
    requires IsUint16(instanceId) && 0 < count <= MAX_AE_ENTRIES_PER_PKT
    requires IsInt32(term) && IsInt32(nodeId) && IsInt32(prevTerm)
    requires IsInt32(first - 1) && first + count - 1 <= log.lastIdx && IsInt32(log.commitIdx)
    requires ChunksFit(log.entries[..], first, count)
    modifies spay, spay.protoData
    ensures Readable(spay.protoData[..], 0) && GetU16(spay.protoData[..], 4) == APPEND
    ensures DecodeBody(spay.protoData[..], 0) == Some(AppendBody(n, first, prevTerm, count))
    ensures spay.Holds([Block(instanceId, ASGARD_PROTO_CON_AE_BASE_SZ + count * AE_ENTRY_SIZE)])
  {
    var size := ASGARD_PROTO_CON_AE_BASE_SZ + count * AE_ENTRY_SIZE;
    ghost var b := Block(instanceId, size);
    assert [] + [b] == [b];
    assert Reserve([], instanceId, size) == Some((0, [b]));
    var at := spay.ReserveProto(instanceId, size, []);
    assert at == Some(0);
    assert Offset([b], 0) == 0;
    AppendIntoChain(spay, 0, term, nodeId, log, first, prevTerm, count, [b], 0);
  }
}
