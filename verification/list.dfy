/** The circular doubly linked list of list.h. A ring is a head node and the sequence of
    entries met by following `next` from it; every operation is an operation on sequences. */
module Lists {

  // struct list_head; null stands for the poison values of a deleted entry.
  class ListHead {
    var next: ListHead?
    var prev: ListHead?

    // INIT_LIST_HEAD
    constructor ()
      ensures next == this && prev == this
      ensures Ring(this, [])
    {
      next, prev := this, this;
    }
  }

  ghost function Nodes(head: ListHead, s: seq<ListHead>): set<ListHead> {
    {head} + set x | x in s
  }

  // Once around: from the head over all entries back to the head.
  ghost function Lap(head: ListHead, s: seq<ListHead>): seq<ListHead> {
    [head] + s + [head]
  }

  ghost predicate NoDuplicates(s: seq<ListHead>) {
    forall i, j :: 0 <= i < j < |s| ==> s[i] != s[j]
  }

  // next and prev are mutually inverse along the lap, and no node is met twice.
  ghost predicate Ring(head: ListHead, s: seq<ListHead>)
    reads Nodes(head, s)
  {
    && head !in s && NoDuplicates(s)
    && var lap := Lap(head, s);
      forall i :: 0 <= i < |lap| - 1 ==> lap[i].next == lap[i + 1] && lap[i + 1].prev == lap[i]
  }

  ghost function Without<T>(s: seq<T>, k: nat): seq<T>
    requires k < |s|
  {
    s[..k] + s[k + 1..]
  }

  // A ring names its entries uniquely: two readings of the same head agree.
  lemma {:induction false} RingReadsOneWay(head: ListHead, s: seq<ListHead>, t: seq<ListHead>)
    requires Ring(head, s) && Ring(head, t)
    ensures s == t
  {
    var i := 0;
    while i < |s| && i < |t|
      invariant 0 <= i <= |s| && i <= |t|
      invariant s[..i] == t[..i]
    {
      NextEntry(head, s, i);
      NextEntry(head, t, i);
      i := i + 1;
    }
    NextEntry(head, s, i);
    NextEntry(head, t, i);
  }

  // From the head or the entry before position i, `next` leads to entry i, then to the head.
  lemma NextEntry(head: ListHead, s: seq<ListHead>, i: nat)
    requires Ring(head, s) && i <= |s|
    ensures (if i == 0 then head else s[i - 1]).next == if i == |s| then head else s[i]
    ensures (if i == |s| then head else s[i]).prev == if i == 0 then head else s[i - 1]
  {
    var lap := Lap(head, s);
    assert lap[i].next == lap[i + 1] && lap[i + 1].prev == lap[i];
  }

  // ---------- insertion ----------

  // __list_add
  method ListInsert(entry: ListHead, prev: ListHead, next: ListHead,
                    ghost head: ListHead, ghost s: seq<ListHead>, ghost k: nat)
    requires Ring(head, s) && k <= |s| && entry !in Nodes(head, s)
    requires prev == Lap(head, s)[k] && next == Lap(head, s)[k + 1]
    modifies entry, prev, next
    ensures Ring(head, s[..k] + [entry] + s[k..])
  {
    ghost var lap := Lap(head, s);
    ghost var t := s[..k] + [entry] + s[k..];
    ghost var lap' := Lap(head, t);
    next.prev := entry;
    entry.next := next;
    entry.prev := prev;
    prev.next := entry;
    forall i | 0 <= i < |lap'| - 1
      ensures lap'[i].next == lap'[i + 1] && lap'[i + 1].prev == lap'[i]
    {
      if i < k {
        assert lap'[i] == lap[i] && lap'[i + 1] == lap[i + 1];
      } else if i > k + 1 {
        assert lap'[i] == lap[i - 1] && lap'[i + 1] == lap[i];
      }
    }
  }

  method ListAdd(entry: ListHead, head: ListHead, ghost s: seq<ListHead>)
    requires Ring(head, s) && entry !in Nodes(head, s)
    modifies entry, Nodes(head, s)
    ensures Ring(head, [entry] + s)
  {
    NextEntry(head, s, 0);
    ListInsert(entry, head, head.next, head, s, 0);
    assert s[..0] + [entry] + s[0..] == [entry] + s;
  }

  method ListAddTail(entry: ListHead, head: ListHead, ghost s: seq<ListHead>)
    requires Ring(head, s) && entry !in Nodes(head, s)
    modifies entry, Nodes(head, s)
    ensures Ring(head, s + [entry])
  {
    NextEntry(head, s, |s|);
    ListInsert(entry, head.prev, head, head, s, |s|);
    assert s[..|s|] + [entry] + s[|s|..] == s + [entry];
  }

  // ---------- removal ----------

  // __list_del
  method ListUnlink(prev: ListHead, next: ListHead, ghost head: ListHead, ghost s: seq<ListHead>, ghost k: nat)
    requires Ring(head, s) && k < |s|
    requires prev == Lap(head, s)[k] && next == Lap(head, s)[k + 2]
    modifies prev, next
    ensures Ring(head, Without(s, k))
  {
    ghost var lap := Lap(head, s);
    ghost var lap' := Lap(head, Without(s, k));
    next.prev := prev;
    prev.next := next;
    forall i | 0 <= i < |lap'| - 1
      ensures lap'[i].next == lap'[i + 1] && lap'[i + 1].prev == lap'[i]
    {
      if i < k {
        assert lap'[i] == lap[i] && lap'[i + 1] == lap[i + 1];
      } else if i > k {
        assert lap'[i] == lap[i + 1] && lap'[i + 1] == lap[i + 2];
      }
    }
  }

  method ListDel(entry: ListHead, ghost head: ListHead, ghost s: seq<ListHead>, ghost k: nat)
    requires Ring(head, s) && k < |s| && s[k] == entry
    modifies Nodes(head, s)
    ensures Ring(head, Without(s, k))
    ensures entry.next == null && entry.prev == null
  {
    NextEntry(head, s, k);
    NextEntry(head, s, k + 1);
    ListUnlink(entry.prev, entry.next, head, s, k);
    entry.next := null;
    entry.prev := null;
  }

  method ListDelInit(entry: ListHead, ghost head: ListHead, ghost s: seq<ListHead>, ghost k: nat)
    requires Ring(head, s) && k < |s| && s[k] == entry
    modifies Nodes(head, s)
    ensures Ring(head, Without(s, k)) && Ring(entry, [])
  {
    NextEntry(head, s, k);
    NextEntry(head, s, k + 1);
    ListUnlink(entry.prev, entry.next, head, s, k);
    entry.next := entry;
    entry.prev := entry;
  }

  // ---------- relocation ----------

  // The target ring may be the entry's own ring or a ring that shares no node with it.
  ghost predicate MoveTarget(from: ListHead, s: seq<ListHead>, head: ListHead, t: seq<ListHead>)
    reads Nodes(from, s), Nodes(head, t)
  {
    Ring(from, s) && Ring(head, t) && ((head == from && t == s) || Nodes(from, s) !! Nodes(head, t))
  }

  // What is in the target ring once the entry is unlinked.
  ghost function Remaining(from: ListHead, s: seq<ListHead>, k: nat, head: ListHead, t: seq<ListHead>): seq<ListHead>
    requires k < |s|
  {
    if head == from then Without(s, k) else t
  }

  method ListMove(entry: ListHead, head: ListHead,
                  ghost from: ListHead, ghost s: seq<ListHead>, ghost k: nat, ghost t: seq<ListHead>)
    requires k < |s| && s[k] == entry && MoveTarget(from, s, head, t)
    modifies Nodes(from, s), Nodes(head, t)
    ensures Ring(head, [entry] + Remaining(from, s, k, head, t))
    ensures head != from ==> Ring(from, Without(s, k))
  {
    NextEntry(from, s, k);
    NextEntry(from, s, k + 1);
    ListUnlink(entry.prev, entry.next, from, s, k);
    assert Ring(head, Remaining(from, s, k, head, t)) && entry !in Nodes(head, Remaining(from, s, k, head, t));
    ListAdd(entry, head, Remaining(from, s, k, head, t));
  }

  method ListMoveTail(entry: ListHead, head: ListHead,
                      ghost from: ListHead, ghost s: seq<ListHead>, ghost k: nat, ghost t: seq<ListHead>)
    requires k < |s| && s[k] == entry && MoveTarget(from, s, head, t)
    modifies Nodes(from, s), Nodes(head, t)
    ensures Ring(head, Remaining(from, s, k, head, t) + [entry])
    ensures head != from ==> Ring(from, Without(s, k))
  {
    NextEntry(from, s, k);
    NextEntry(from, s, k + 1);
    ListUnlink(entry.prev, entry.next, from, s, k);
    assert Ring(head, Remaining(from, s, k, head, t)) && entry !in Nodes(head, Remaining(from, s, k, head, t));
    ListAddTail(entry, head, Remaining(from, s, k, head, t));
  }

  method ListEmpty(head: ListHead, ghost s: seq<ListHead>) returns (empty: bool)
    requires Ring(head, s)
    ensures empty <==> s == []
  {
    NextEntry(head, s, 0);
    assert s != [] ==> s[0] in s;
    return head.next == head;
  }

  // ---------- concatenation ----------

  lemma JoinHasNoDuplicates(list: ListHead, head: ListHead, t: seq<ListHead>, s: seq<ListHead>)
    requires Ring(list, t) && Ring(head, s) && Nodes(list, t) !! Nodes(head, s)
    ensures head !in t + s && list !in t + s && NoDuplicates(t + s)
  {
    assert forall x :: x in t ==> x in Nodes(list, t);
    assert forall x :: x in s ==> x in Nodes(head, s);
    var c := t + s;
    forall i, j | 0 <= i < j < |c|
      ensures c[i] != c[j]
    {
      assert i >= |t| || c[i] in t;
      assert j < |t| || c[j] in s;
    }
  }

  // __list_splice; the spliced ring's own head keeps its stale pointers.
  method ListSpliceNonEmpty(list: ListHead, head: ListHead, ghost t: seq<ListHead>, ghost s: seq<ListHead>)
    requires Ring(list, t) && Ring(head, s) && t != [] && Nodes(list, t) !! Nodes(head, s)
    modifies Nodes(list, t), Nodes(head, s)
    ensures Ring(head, t + s)
  {
    NextEntry(list, t, 0);
    NextEntry(list, t, |t|);
    NextEntry(head, s, 0);
    JoinHasNoDuplicates(list, head, t, s);
    ghost var lapT, lapS, lap' := Lap(list, t), Lap(head, s), Lap(head, t + s);
    var first, last, at := list.next, list.prev, head.next;
    first.prev := head;
    head.next := first;
    last.next := at;
    at.prev := last;
    forall i | 0 <= i < |lap'| - 1
      ensures lap'[i].next == lap'[i + 1] && lap'[i + 1].prev == lap'[i]
    {
      if 0 < i < |t| {
        assert lap'[i] == lapT[i] && lap'[i + 1] == lapT[i + 1];
      } else if i > |t| {
        assert lap'[i] == lapS[i - |t|] && lap'[i + 1] == lapS[i - |t| + 1];
      }
    }
  }

  method ListSplice(list: ListHead, head: ListHead, ghost t: seq<ListHead>, ghost s: seq<ListHead>)
    requires Ring(list, t) && Ring(head, s) && Nodes(list, t) !! Nodes(head, s)
    modifies Nodes(list, t), Nodes(head, s)
    ensures Ring(head, t + s)
  {
    var empty := ListEmpty(list, t);
    if !empty {
      ListSpliceNonEmpty(list, head, t, s);
    } else {
      assert t + s == s;
    }
  }

  method ListSpliceInit(list: ListHead, head: ListHead, ghost t: seq<ListHead>, ghost s: seq<ListHead>)
    requires Ring(list, t) && Ring(head, s) && Nodes(list, t) !! Nodes(head, s)
    modifies Nodes(list, t), Nodes(head, s)
    ensures Ring(head, t + s) && Ring(list, [])
  {
    var empty := ListEmpty(list, t);
    if !empty {
      JoinHasNoDuplicates(list, head, t, s);
      ListSpliceNonEmpty(list, head, t, s);
      list.next := list;
      list.prev := list;
    } else {
      assert t + s == s;
    }
  }
}
