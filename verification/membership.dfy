/** The membership counters of membership.c. */
module Membership {
  import opened Types

  const DEAD := 0
  const ALIVE := 1
  const NEVER_SEEN := 2
  const MAX_CLUSTER_MEMBER := 512
  const MAX_REMOTE_SOURCES := 16

  // struct cluster_info: states holds member_info[..].state, of which the first
  // `registered` belong to registered peers; the memory starts zeroed.
  datatype Info = Info(states: seq<int>, registered: nat, overall: int, active: int, dead: int,
                       joins: int, dropouts: int)
  {
    predicate Fits() {
      registered <= MAX_REMOTE_SOURCES && |states| == MAX_CLUSTER_MEMBER
    }

    // The states of the registered peers.
    function Peers(): seq<int>
      requires Fits()
    {
      states[..registered]
    }
  }

  function AddMember(ci: Info, state: int): (ci': Info)
    requires ci.Fits() && ci.registered < MAX_REMOTE_SOURCES
    ensures ci'.Fits()
  {
    ci.(states := ci.states[ci.registered := state], registered := ci.registered + 1, overall := ci.overall + 1)
  }

  function Update(ci: Info, lid: nat, state: int): (ci': Info)
    requires ci.Fits() && lid < MAX_CLUSTER_MEMBER
    ensures ci'.Fits() && ci'.registered == ci.registered
  {
    var prev := ci.states[lid];
    if state == prev then ci
    else
      var dropped := state == DEAD && prev != NEVER_SEEN;
      var back := state == ALIVE && prev != NEVER_SEEN;
      ci.(states := ci.states[lid := state],
          dead := ci.dead + (if dropped then 1 else 0) - (if back then 1 else 0),
          dropouts := ci.dropouts + (if dropped then 1 else 0),
          active := ci.active + (if state == ALIVE then 1 else 0),
          joins := ci.joins + (if state == ALIVE then 1 else 0))
  }

  const NOBODY := Info(seq(MAX_CLUSTER_MEMBER, _ => 0), 0, 0, 0, 0, 0, 0)

  class ClusterInfo {
    const selfId: int
    const memberState: array<int>
    var registered: nat
    var overallClusterMember: int
    var activeClusterMember: int
    var deadClusterMember: int
    var clusterJoins: int
    var clusterDropouts: int

    ghost predicate Valid()
      reads this
    {
      memberState.Length == MAX_CLUSTER_MEMBER && registered <= MAX_REMOTE_SOURCES
    }

    ghost function View(): (ci: Info)
      reads this, memberState
      ensures Valid() ==> ci.Fits()
    {
      Info(memberState[..], registered, overallClusterMember, activeClusterMember, deadClusterMember,
           clusterJoins, clusterDropouts)
    }

    constructor (selfId: int)
      ensures Valid() && fresh(memberState) && View() == NOBODY && this.selfId == selfId
    {
      this.selfId := selfId;
      memberState := new int[MAX_CLUSTER_MEMBER](_ => 0);
      registered, overallClusterMember, activeClusterMember := 0, 0, 0;
      deadClusterMember, clusterJoins, clusterDropouts := 0, 0, 0;
      new;
      assert memberState[..] == NOBODY.states;
    }

    // register_peer_by_ip with add_cluster_member: the next local id, never seen before.
    // The node's own cluster id is refused, and so is a peer beyond the limit.
    method RegisterPeer(clusterId: int) returns (ok: bool)
      requires Valid()
      modifies this, memberState
      ensures Valid() && ok == (clusterId != selfId && old(registered) < MAX_REMOTE_SOURCES)
      ensures View() == if ok then AddMember(old(View()), NEVER_SEEN) else old(View())
    {
      if clusterId == selfId {
        return false;
      }
      if registered >= MAX_REMOTE_SOURCES {
        return false;
      }
      memberState[registered] := NEVER_SEEN;
      overallClusterMember := overallClusterMember + 1;
      registered := registered + 1;
      return true;
    }

    // The source's test lets the id one past its array through; that write is not modelled.
    method UpdateClusterMember(lid: int, state: int)
      requires Valid() && lid != MAX_CLUSTER_MEMBER
      modifies this, memberState
      ensures Valid()
      ensures View() == if 0 <= lid < MAX_CLUSTER_MEMBER then Update(old(View()), lid, state) else old(View())
    {
      if lid > MAX_CLUSTER_MEMBER {
        return;
      }
      if lid < 0 {
        return;
      }
      var prevState := memberState[lid];
      if state != prevState {
        if state == DEAD && prevState != NEVER_SEEN {
          deadClusterMember := deadClusterMember + 1;
          clusterDropouts := clusterDropouts + 1;
        }
        if state == ALIVE {
          if prevState != NEVER_SEEN {
            deadClusterMember := deadClusterMember - 1;
          }
          activeClusterMember := activeClusterMember + 1;
          clusterJoins := clusterJoins + 1;
        }
        memberState[lid] := state;
      }
    }
  }

  // ---------- runs ----------

  datatype Change = Register | Mark(lid: nat, alive: bool)

  // A run with its history: how often a peer went from never seen to dead.
  datatype Ledger = Ledger(ci: Info, unseenDeaths: nat)

  const EMPTY := Ledger(NOBODY, 0)

  // Both callers mark registered targets only, with state 0 or 1.
  function Post(l: Ledger, c: Change): (l': Ledger)
    requires l.ci.Fits()
    ensures l'.ci.Fits()
  {
    match c
    case Register => if l.ci.registered == MAX_REMOTE_SOURCES then l else l.(ci := AddMember(l.ci, NEVER_SEEN))
    case Mark(lid, alive) =>
      if lid >= l.ci.registered then l
      else Ledger(Update(l.ci, lid, if alive then ALIVE else DEAD),
                  l.unseenDeaths + if !alive && l.ci.states[lid] == NEVER_SEEN then 1 else 0)
  }

  function PostAll(l: Ledger, changes: seq<Change>): (l': Ledger)
    requires l.ci.Fits()
    ensures l'.ci.Fits()
    decreases |changes|
  {
    if changes == [] then l else PostAll(Post(l, changes[0]), changes[1..])
  }

  function Count(states: seq<int>, state: int): nat {
    if states == [] then 0 else Count(states[1..], state) + if states[0] == state then 1 else 0
  }

  lemma {:induction false} CountAppend(states: seq<int>, x: int, state: int)
    ensures Count(states + [x], state) == Count(states, state) + if x == state then 1 else 0
    decreases |states|
  {
    if states == [] {
      assert states + [x] == [x];
      assert [x][1..] == [];
    } else {
      assert (states + [x])[1..] == states[1..] + [x];
      CountAppend(states[1..], x, state);
    }
  }

  lemma {:induction false} CountUpdate(states: seq<int>, lid: nat, x: int, state: int)
    requires lid < |states|
    ensures Count(states[lid := x], state) ==
      Count(states, state) + (if x == state then 1 else 0) - (if states[lid] == state then 1 else 0)
    decreases lid
  {
    if lid == 0 {
      assert states[0 := x][1..] == states[1..];
    } else {
      assert states[lid := x][1..] == states[1..][lid - 1 := x];
      CountUpdate(states[1..], lid - 1, x, state);
    }
  }

  ghost predicate Balanced(l: Ledger) {
    && l.ci.Fits()
    && (forall i :: 0 <= i < l.ci.registered ==> l.ci.states[i] in {DEAD, ALIVE, NEVER_SEEN})
    && l.ci.overall == l.ci.registered
    && l.ci.joins - l.ci.dropouts == Count(l.ci.Peers(), ALIVE)
    && l.ci.dead + l.unseenDeaths == Count(l.ci.Peers(), DEAD)
    && l.ci.active == l.ci.joins && l.ci.dropouts >= 0
  }

  lemma PostKeepsBalance(l: Ledger, c: Change)
    requires Balanced(l)
    ensures Balanced(Post(l, c))
  {
    var peers := l.ci.Peers();
    match c
    case Register =>
      if l.ci.registered < MAX_REMOTE_SOURCES {
        assert Post(l, c).ci.Peers() == peers + [NEVER_SEEN];
        CountAppend(peers, NEVER_SEEN, ALIVE);
        CountAppend(peers, NEVER_SEEN, DEAD);
      }
    case Mark(lid, alive) =>
      if lid < l.ci.registered {
        var state := if alive then ALIVE else DEAD;
        assert l.ci.states[lid := state][..l.ci.registered] == peers[lid := state];
        CountUpdate(peers, lid, state, ALIVE);
        CountUpdate(peers, lid, state, DEAD);
      }
  }

  // Over any run of registrations and marks: joins less dropouts is the number of targets
  // alive, and the dead counter plus the deaths of never-seen targets is the number dead.
  lemma {:induction false} MembershipConserved(l: Ledger, changes: seq<Change>)
    requires Balanced(l)
    ensures Balanced(PostAll(l, changes))
    decreases |changes|
  {
    if changes != [] {
      PostKeepsBalance(l, changes[0]);
      MembershipConserved(Post(l, changes[0]), changes[1..]);
    }
  }

  // The two counters documented as current numbers are so only while nothing dropped out
  // and while no never-seen target was marked dead.
  lemma CountersMeanWhatTheySay(changes: seq<Change>)
    ensures var l := PostAll(EMPTY, changes);
      && (l.ci.active == Count(l.ci.Peers(), ALIVE) <==> l.ci.dropouts == 0)
      && (l.ci.dead == Count(l.ci.Peers(), DEAD) <==> l.unseenDeaths == 0)
  {
    MembershipConserved(EMPTY, changes);
  }

  // A target first seen after it was marked dead takes the dead counter below zero.
  lemma DeadCounterUnderflows()
    ensures PostAll(EMPTY, [Register, Mark(0, false), Mark(0, true)]).ci.dead == -1
  {
    var l1 := Post(EMPTY, Register);
    var l2 := Post(l1, Mark(0, false));
    assert PostAll(EMPTY, [Register, Mark(0, false), Mark(0, true)]) == PostAll(l1, [Mark(0, false), Mark(0, true)]);
    assert PostAll(l1, [Mark(0, false), Mark(0, true)]) == PostAll(l2, [Mark(0, true)]);
    assert PostAll(l2, [Mark(0, true)]) == PostAll(Post(l2, Mark(0, true)), []);
  }
}
