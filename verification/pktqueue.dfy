/** The queue of outgoing packets (pktqueue.c) with its doorbell, as replication.c fills it
    and pacemaker.c drains it. A packet is identified with the list node it embeds. */
module PktQueue {
  import opened Types
  import opened Lists

  // What the queue holds, front first, and how many packets the pacemaker thinks wait.
  datatype Queue<T> = Queue(items: seq<T>, doorbell: int)

  function Enqueued<T>(q: Queue<T>, x: T): Queue<T> {
    q.(items := q.items + [x])
  }

  function PushedFront<T>(q: Queue<T>, x: T): Queue<T> {
    q.(items := [x] + q.items)
  }

  function Rung<T>(q: Queue<T>): Queue<T> {
    q.(doorbell := q.doorbell + 1)
  }

  function Dequeued<T>(q: Queue<T>): (Queue<T>, Option<T>) {
    if q.items == [] then (q, None) else (q.(items := q.items[1..]), Some(q.items[0]))
  }

  // One target's share of emit_async_unicast_pkts.
  function Emitted<T>(q: Queue<T>): (Queue<T>, Option<T>) {
    if q.doorbell > 0 then
      var (q', x) := Dequeued(q);
      (q'.(doorbell := q.doorbell - 1), x)
    else (q, None)
  }

  // async_clear_queue
  function Cleared<T>(q: Queue<T>): Queue<T> {
    if q.doorbell <= 0 then q else q.(items := [])
  }

  // ---------- the queue in memory ----------

  class AsyncQueue {
    const head: ListHead
    var doorbell: int
    ghost var contents: seq<ListHead>

    ghost predicate Valid()
      reads this, Nodes(head, contents)
    {
      Ring(head, contents)
    }

    ghost function View(): Queue<ListHead>
      reads this
    {
      Queue(contents, doorbell)
    }

    constructor ()
      ensures Valid() && fresh(head) && View() == Queue([], 0)
    {
      head := new ListHead();
      doorbell := 0;
      contents := [];
    }

    method RingDoorbell()
      requires Valid()
      modifies this`doorbell
      ensures Valid() && View() == Rung(old(View()))
    {
      doorbell := doorbell + 1;
    }

    method Enqueue(pkt: ListHead)
      requires Valid() && pkt !in Nodes(head, contents)
      modifies this`contents, pkt, Nodes(head, contents)
      ensures Valid() && View() == Enqueued(old(View()), pkt)
    {
      ListAddTail(pkt, head, contents);
      contents := contents + [pkt];
    }

    method PushFront(pkt: ListHead)
      requires Valid() && pkt !in Nodes(head, contents)
      modifies this`contents, pkt, Nodes(head, contents)
      ensures Valid() && View() == PushedFront(old(View()), pkt)
    {
      ListAdd(pkt, head, contents);
      contents := [pkt] + contents;
    }

    method Dequeue() returns (pkt: ListHead?)
      requires Valid()
      modifies this`contents, Nodes(head, contents)
      ensures Valid() && View() == Dequeued(old(View())).0
      ensures pkt == match Dequeued(old(View())).1 case None => null case Some(x) => x
    {
      var empty := ListEmpty(head, contents);
      if empty {
        return null;
      }
      NextEntry(head, contents, 0);
      pkt := head.next;
      ListDel(pkt, head, contents, 0);
      contents := Without(contents, 0);
    }

    method Emit() returns (pkt: ListHead?)
      requires Valid()
      modifies this, Nodes(head, contents)
      ensures Valid() && View() == Emitted(old(View())).0
      ensures pkt == match Emitted(old(View())).1 case None => null case Some(x) => x
    {
      pkt := null;
      if doorbell > 0 {
        pkt := Dequeue();
        doorbell := doorbell - 1;
      }
    }

    method Clear()
      requires Valid()
      modifies this`contents, Nodes(head, contents)
      ensures Valid() && View() == Cleared(old(View()))
    {
      if doorbell <= 0 {
        return;
      }
      var pkt := Dequeue();
      while pkt != null
        invariant Valid() && doorbell == old(doorbell)
        invariant Nodes(head, contents) <= old(Nodes(head, contents))
        invariant pkt == null ==> contents == []
        decreases |contents|, pkt != null
      {
        pkt := Dequeue();
      }
    }
  }

  // ---------- runs ----------

  // A retransmission is pushed to the front, any other packet goes to the end.
  datatype Item = Item(pkt: int, retrans: bool)

  datatype QueueStep = Put(item: Item) | RingBell | Emission | Teardown

  // A queue with its history: put and left in order, rings owed, packets dropped by a
  // teardown and emissions that found nothing.
  datatype Traffic = Traffic(q: Queue<Item>, put: seq<Item>, left: seq<Item>, owed: nat, dropped: nat, idle: nat)

  const QUIET := Traffic(Queue([], 0), [], [], 0, 0, 0)

  // do_prepare_log_replication queues a packet and rings afterwards.
  function Advance(t: Traffic, step: QueueStep): Traffic {
    match step
    case Put(item) =>
      t.(q := if item.retrans then PushedFront(t.q, item) else Enqueued(t.q, item),
         put := t.put + [item], owed := t.owed + 1)
    case RingBell => if t.owed == 0 then t else t.(q := Rung(t.q), owed := t.owed - 1)
    case Emission =>
      var (q', x) := Emitted(t.q);
      t.(q := q',
         left := if x.Some? then t.left + [x.value] else t.left,
         idle := if t.q.doorbell > 0 && x.None? then t.idle + 1 else t.idle)
    case Teardown =>
      t.(q := Cleared(t.q),
         left := t.left + t.q.items[..|t.q.items| - |Cleared(t.q).items|],
         dropped := t.dropped + |t.q.items| - |Cleared(t.q).items|)
  }

  function After(t: Traffic, steps: seq<QueueStep>): Traffic
    decreases |steps|
  {
    if steps == [] then t else After(Advance(t, steps[0]), steps[1..])
  }

  function Ordinary(s: seq<Item>): (r: seq<Item>)
    ensures |r| <= |s|
  {
    if s == [] then []
    else (if s[0].retrans then [] else [s[0]]) + Ordinary(s[1..])
  }

  lemma {:induction false} OrdinaryConcat(s: seq<Item>, t: seq<Item>)
    ensures Ordinary(s + t) == Ordinary(s) + Ordinary(t)
    decreases |s|
  {
    if s == [] {
      assert s + t == t;
    } else {
      assert (s + t)[1..] == s[1..] + t;
      OrdinaryConcat(s[1..], t);
    }
  }

  // Retransmissions stand in front of everything else.
  ghost predicate RetransmissionsFirst(s: seq<Item>) {
    forall i, j :: 0 <= i < j < |s| && s[j].retrans ==> s[i].retrans
  }

  ghost predicate TrafficInv(t: Traffic) {
    && RetransmissionsFirst(t.q.items)
    && Ordinary(t.left) + Ordinary(t.q.items) == Ordinary(t.put)
    && multiset(t.left) + multiset(t.q.items) == multiset(t.put)
    && t.q.doorbell + t.owed == |t.q.items| + t.dropped - t.idle
    && t.idle <= t.dropped
  }

  lemma Associative<T>(a: seq<T>, b: seq<T>, c: seq<T>)
    ensures (a + b) + c == a + (b + c)
  {
  }

  lemma MultisetConcat<T>(a: seq<T>, b: seq<T>)
    ensures multiset(a + b) == multiset(a) + multiset(b)
  {
  }

  // Where a new packet joins the queue does not disturb the order of ordinary packets.
  lemma JoiningKeepsOrder(left: seq<Item>, items: seq<Item>, put: seq<Item>, item: Item)
    requires Ordinary(left) + Ordinary(items) == Ordinary(put)
    ensures Ordinary(left) + Ordinary(if item.retrans then [item] + items else items + [item]) == Ordinary(put + [item])
  {
    OrdinaryConcat(put, [item]);
    OrdinaryConcat([item], items);
    OrdinaryConcat(items, [item]);
    Associative(Ordinary(left), Ordinary(items), Ordinary([item]));
    assert Ordinary([item]) == if item.retrans then [] else [item];
  }

  lemma JoiningKeepsAll(left: seq<Item>, items: seq<Item>, put: seq<Item>, item: Item)
    requires multiset(left) + multiset(items) == multiset(put)
    ensures multiset(left) + multiset([item] + items) == multiset(put + [item])
    ensures multiset(left) + multiset(items + [item]) == multiset(put + [item])
  {
  }

  lemma JoiningKeepsFirst(items: seq<Item>, item: Item)
    requires RetransmissionsFirst(items)
    ensures RetransmissionsFirst(if item.retrans then [item] + items else items + [item])
  {
  }

  lemma PutKeeps(t: Traffic, item: Item)
    requires TrafficInv(t)
    ensures TrafficInv(Advance(t, Put(item)))
  {
    hide Ordinary, RetransmissionsFirst;
    JoiningKeepsFirst(t.q.items, item);
    JoiningKeepsOrder(t.left, t.q.items, t.put, item);
    JoiningKeepsAll(t.left, t.q.items, t.put, item);
  }

  // Packets that leave the front move from one side of the invariant to the other.
  lemma LeavingKeeps(left: seq<Item>, gone: seq<Item>, rest: seq<Item>)
    ensures Ordinary(left + gone) + Ordinary(rest) == Ordinary(left) + Ordinary(gone + rest)
    ensures multiset(left + gone) + multiset(rest) == multiset(left) + multiset(gone + rest)
  {
    OrdinaryConcat(left, gone);
    OrdinaryConcat(gone, rest);
    Associative(Ordinary(left), Ordinary(gone), Ordinary(rest));
    MultisetConcat(left, gone);
    MultisetConcat(gone, rest);
  }

  lemma EmissionKeeps(t: Traffic)
    requires TrafficInv(t)
    ensures TrafficInv(Advance(t, Emission))
  {
    if t.q.items != [] {
      var first, rest := t.q.items[0], t.q.items[1..];
      assert RetransmissionsFirst(rest);
      hide Ordinary, RetransmissionsFirst;
      assert [first] + rest == t.q.items;
      LeavingKeeps(t.left, [first], rest);
    }
  }

  lemma TeardownKeeps(t: Traffic)
    requires TrafficInv(t)
    ensures TrafficInv(Advance(t, Teardown))
  {
    var rest := Cleared(t.q).items;
    var gone := t.q.items[..|t.q.items| - |rest|];
    LeavingKeeps(t.left, gone, rest);
    assert gone + rest == t.q.items;
  }

  lemma AdvanceKeeps(t: Traffic, step: QueueStep)
    requires TrafficInv(t)
    ensures TrafficInv(Advance(t, step))
  {
    match step
    case Put(item) => PutKeeps(t, item);
    case RingBell =>
    case Emission => EmissionKeeps(t);
    case Teardown => TeardownKeeps(t);
  }

  // Over any interleaving of queueing, ringing, emitting and tearing down: every packet
  // put is either still queued or has left exactly once, ordinary packets leave in the
  // order they were put, retransmissions overtake them, and the doorbell misses the queue
  // length by the rings still owed and by what teardowns dropped.
  lemma {:induction false} TrafficFlows(t: Traffic, steps: seq<QueueStep>)
    requires TrafficInv(t)
    ensures TrafficInv(After(t, steps))
    decreases |steps|
  {
    if steps != [] {
      AdvanceKeeps(t, steps[0]);
      TrafficFlows(Advance(t, steps[0]), steps[1..]);
    }
  }

  lemma {:induction false} NothingDropped(t: Traffic, steps: seq<QueueStep>)
    requires Teardown !in steps
    ensures After(t, steps).dropped == t.dropped
    decreases |steps|
  {
    if steps != [] {
      NothingDropped(Advance(t, steps[0]), steps[1..]);
    }
  }

  // Without a teardown the doorbell is the queue length whenever every put has been rung
  // for, so no emission finds the queue empty, and what left is what was put first.
  lemma DoorbellCountsQueue(steps: seq<QueueStep>)
    requires Teardown !in steps
    ensures var t := After(QUIET, steps);
      && t.q.doorbell == |t.q.items| - t.owed
      && t.idle == 0
      && Ordinary(t.left) <= Ordinary(t.put)
  {
    TrafficFlows(QUIET, steps);
    NothingDropped(QUIET, steps);
  }

  // A teardown drops all of a rung queue and nothing else, and leaves the doorbell alone. So
  // with teardowns the two agree exactly when each dropped packet has been paid for by an
  // emission that found nothing.
  lemma DoorbellAfterTeardown(steps: seq<QueueStep>)
    ensures var t := After(QUIET, steps);
      && t.q.doorbell + t.owed >= |t.q.items|
      && (t.owed == 0 ==> (t.q.doorbell == |t.q.items| <==> t.idle == t.dropped))
      && Advance(t, Teardown) ==
           if t.q.doorbell <= 0 then t
           else t.(q := Queue([], t.q.doorbell), left := t.left + t.q.items, dropped := t.dropped + |t.q.items|)
  {
    TrafficFlows(QUIET, steps);
  }

  // A teardown of a rung-for queue leaves the doorbell standing.
  lemma TeardownKeepsDoorbell(item: Item)
    ensures var t := After(QUIET, [Put(item), RingBell, Teardown]);
      t.q.items == [] && t.q.doorbell == 1
  {
    var t1 := Advance(QUIET, Put(item));
    var t2 := Advance(t1, RingBell);
    assert After(QUIET, [Put(item), RingBell, Teardown]) == After(t1, [RingBell, Teardown]);
    assert After(t1, [RingBell, Teardown]) == After(t2, [Teardown]);
    assert After(t2, [Teardown]) == After(Advance(t2, Teardown), []);
  }
}
