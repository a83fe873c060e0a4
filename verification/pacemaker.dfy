/** The failure detector: update_aliveness_states of pacemaker.c on every scheduled
    heartbeat, and the refresh in do_post_payload on every packet of a known peer. */
module FailureDetector {
  import opened Types

  // The fields of struct asgard_pm_target_info the detector uses.
  datatype Target = Target(alive: bool, lhbTs: int, chbTs: int, waiting: nat, respFactor: nat)

  // register_peer_by_ip
  const REGISTERED := Target(false, 0, 0, 4, 8)

  datatype Event = Packet(ts: int) | Tick

  function Handle(t: Target, e: Event): Target {
    match e
    case Packet(ts) => t.(chbTs := ts, alive := true)
    case Tick =>
      if t.waiting != 0 then t.(waiting := t.waiting - 1)
      else if t.lhbTs == t.chbTs then t.(alive := false, waiting := t.respFactor)
      else t.(lhbTs := t.chbTs, waiting := t.respFactor)
  }

  function HandleAll(t: Target, events: seq<Event>): Target
    decreases |events|
  {
    if events == [] then t else HandleAll(Handle(t, events[0]), events[1..])
  }

  lemma {:induction false} HandleConcat(t: Target, a: seq<Event>, b: seq<Event>)
    ensures HandleAll(t, a + b) == HandleAll(HandleAll(t, a), b)
    decreases |a|
  {
    if a == [] {
      assert a + b == b;
    } else {
      assert (a + b)[1..] == a[1..] + b;
      HandleConcat(Handle(t, a[0]), a[1..], b);
    }
  }

  class PmTarget {
    var alive: bool
    var lhbTs: int
    var chbTs: int
    var curWaitingInterval: nat
    const respFactor: nat

    ghost function View(): Target
      reads this
    {
      Target(alive, lhbTs, chbTs, curWaitingInterval, respFactor)
    }

    constructor ()
      ensures View() == REGISTERED
    {
      alive, lhbTs, chbTs, curWaitingInterval, respFactor := false, 0, 0, 4, 8;
    }

    method UpdateAlivenessState()
      modifies this
      ensures View() == Handle(old(View()), Tick)
    {
      if curWaitingInterval != 0 {
        curWaitingInterval := curWaitingInterval - 1;
        return;
      }
      if lhbTs == chbTs {
        alive := false;
        curWaitingInterval := respFactor;
        return;
      }
      lhbTs := chbTs;
      curWaitingInterval := respFactor;
    }

    method PacketReceived(ts: int)
      modifies this
      ensures View() == Handle(old(View()), Packet(ts))
    {
      chbTs := ts;
      alive := true;
    }
  }

  // ---------- what the detector should know ----------

  // A window is the time from one check to the next; no timestamps here, only whether a
  // packet came in this window and in the one before.
  datatype Watch = Watch(heardNow: bool, heardBefore: bool, left: nat, window: nat)

  const UNWATCHED := Watch(false, false, 4, 8)

  function Observe(w: Watch, e: Event): Watch {
    match e
    case Packet(_) => w.(heardNow := true)
    case Tick =>
      if w.left > 0 then w.(left := w.left - 1)
      else w.(heardBefore := w.heardNow, heardNow := false, left := w.window)
  }

  function ObserveAll(w: Watch, events: seq<Event>): Watch
    decreases |events|
  {
    if events == [] then w else ObserveAll(Observe(w, events[0]), events[1..])
  }

  // Every packet's timestamp is later than any before it.
  ghost predicate Fresh(last: int, events: seq<Event>)
    decreases |events|
  {
    events == [] ||
    match events[0]
    case Packet(ts) => ts > last && Fresh(ts, events[1..])
    case Tick => Fresh(last, events[1..])
  }

  ghost predicate Tracks(t: Target, w: Watch) {
    && t.waiting == w.left && t.respFactor == w.window && t.lhbTs <= t.chbTs
    && (t.lhbTs == t.chbTs <==> !w.heardNow)
    && (t.alive <==> w.heardNow || w.heardBefore)
  }

  // Over any interleaving of packets and ticks a target counts as alive exactly when it
  // was heard in the current window or in the one before.
  lemma {:induction false} AliveMeansHeard(t: Target, w: Watch, events: seq<Event>)
    requires Tracks(t, w) && Fresh(t.chbTs, events)
    ensures Tracks(HandleAll(t, events), ObserveAll(w, events))
    decreases |events|
  {
    if events != [] {
      AliveMeansHeard(Handle(t, events[0]), Observe(w, events[0]), events[1..]);
    }
  }

  lemma AliveMeansHeardSinceRegistration(events: seq<Event>)
    requires Fresh(0, events)
    ensures var w := ObserveAll(UNWATCHED, events);
      HandleAll(REGISTERED, events).alive <==> w.heardNow || w.heardBefore
  {
    AliveMeansHeard(REGISTERED, UNWATCHED, events);
  }

  // ---------- accuracy: one window ----------

  function Ticks(events: seq<Event>): nat {
    if events == [] then 0 else Ticks(events[1..]) + if events[0].Tick? then 1 else 0
  }

  ghost predicate AnyPacket(events: seq<Event>) {
    exists i :: 0 <= i < |events| && events[i].Packet?
  }

  lemma {:induction false} WithinWindow(t: Target, events: seq<Event>)
    requires Ticks(events) <= t.waiting && Fresh(t.chbTs, events) && t.lhbTs <= t.chbTs
    ensures var t' := HandleAll(t, events);
      && t'.waiting == t.waiting - Ticks(events)
      && t'.lhbTs == t.lhbTs && t'.respFactor == t.respFactor
      && (AnyPacket(events) ==> t'.chbTs > t.chbTs && t'.alive)
      && (!AnyPacket(events) ==> t'.chbTs == t.chbTs && t'.alive == t.alive)
    decreases |events|
  {
    if events != [] {
      var rest := events[1..];
      WithinWindow(Handle(t, events[0]), rest);
      if AnyPacket(rest) {
        var i :| 0 <= i < |rest| && rest[i].Packet?;
        assert events[i + 1].Packet?;
      }
      if AnyPacket(events) && !events[0].Packet? {
        var i :| 0 <= i < |events| && events[i].Packet?;
        assert rest[i - 1].Packet?;
      }
    }
  }

  // From one check to the next: resp_factor ticks pass, the check comes on the tick after
  // them, and it finds the target dead exactly when no packet came in between.
  lemma CheckIsAccurate(t: Target, events: seq<Event>)
    requires t.lhbTs == t.chbTs && Ticks(events) == t.waiting && Fresh(t.chbTs, events)
    ensures var t' := HandleAll(t, events + [Tick]);
      && (t'.alive <==> AnyPacket(events))
      && t'.lhbTs == t'.chbTs && t'.waiting == t.respFactor && t'.respFactor == t.respFactor
  {
    WithinWindow(t, events);
    HandleConcat(t, events, [Tick]);
    var before := HandleAll(t, events);
    assert HandleAll(before, [Tick]) == HandleAll(Handle(before, Tick), []) == Handle(before, Tick);
  }

  // The timestamp of the last packet, or the one from before.
  function LastStamp(events: seq<Event>, before: int): int {
    if events == [] then before
    else LastStamp(events[1..], if events[0].Packet? then events[0].ts else before)
  }

  lemma {:induction false} WindowWithAnyStamps(t: Target, events: seq<Event>)
    requires Ticks(events) <= t.waiting
    ensures var t' := HandleAll(t, events);
      && t'.waiting == t.waiting - Ticks(events) && t'.lhbTs == t.lhbTs && t'.respFactor == t.respFactor
      && t'.chbTs == LastStamp(events, t.chbTs)
      && (t'.alive <==> t.alive || AnyPacket(events))
    decreases |events|
  {
    if events != [] {
      var rest := events[1..];
      WindowWithAnyStamps(Handle(t, events[0]), rest);
      if AnyPacket(rest) {
        var i :| 0 <= i < |rest| && rest[i].Packet?;
        assert events[i + 1].Packet?;
      }
      if AnyPacket(events) && !events[0].Packet? {
        var i :| 0 <= i < |events| && events[i].Packet?;
        assert rest[i - 1].Packet?;
      }
    }
  }

  lemma {:induction false} NoPacketNoStamp(events: seq<Event>, before: int)
    requires !AnyPacket(events)
    ensures LastStamp(events, before) == before
    decreases |events|
  {
    if events != [] {
      assert !events[0].Packet?;
      forall i | 0 <= i < |events[1..]|
        ensures !events[1..][i].Packet?
      {
        assert events[i + 1] == events[1..][i];
      }
      NoPacketNoStamp(events[1..], before);
    }
  }

  // Without any assumption on timestamps: the check finds a target alive exactly when the
  // last packet of the window is stamped differently from the last one checked before. A
  // window full of packets that ends with a repeated stamp counts as silence.
  lemma CheckSeesLastStamp(t: Target, events: seq<Event>)
    requires t.lhbTs == t.chbTs && Ticks(events) == t.waiting
    ensures HandleAll(t, events + [Tick]).alive <==> LastStamp(events, t.lhbTs) != t.lhbTs
  {
    WindowWithAnyStamps(t, events);
    HandleConcat(t, events, [Tick]);
    var before := HandleAll(t, events);
    assert HandleAll(before, [Tick]) == HandleAll(Handle(before, Tick), []) == Handle(before, Tick);
    if !AnyPacket(events) {
      NoPacketNoStamp(events, t.chbTs);
    }
  }

  // ---------- completeness ----------

  function Silence(n: nat): (events: seq<Event>)
    ensures |events| == n
  {
    seq(n, _ => Tick)
  }

  // The tick at which a silent target is found dead.
  function DeadAt(t: Target): nat {
    if t.lhbTs == t.chbTs then t.waiting + 1 else t.waiting + 1 + t.respFactor + 1
  }

  // A target that falls silent is marked dead on exactly that tick, and stays dead.
  lemma {:induction false} SilentTargetDies(t: Target, n: nat)
    ensures HandleAll(t, Silence(n)).alive <==> t.alive && n < DeadAt(t)
    decreases n
  {
    if n > 0 {
      assert Silence(n)[1..] == Silence(n - 1);
      SilentTargetDies(Handle(t, Tick), n - 1);
    }
  }

  lemma {:induction false} WaitingBounded(t: Target, events: seq<Event>)
    requires t.waiting <= t.respFactor
    ensures var t' := HandleAll(t, events); t'.waiting <= t'.respFactor == t.respFactor
    decreases |events|
  {
    if events != [] {
      WaitingBounded(Handle(t, events[0]), events[1..]);
    }
  }

  // Whatever happened before, twice resp_factor + 1 silent ticks are enough.
  lemma SilenceIsNoticed(events: seq<Event>, n: nat)
    requires n >= 2 * (REGISTERED.respFactor + 1)
    ensures !HandleAll(REGISTERED, events + Silence(n)).alive
  {
    HandleConcat(REGISTERED, events, Silence(n));
    WaitingBounded(REGISTERED, events);
    SilentTargetDies(HandleAll(REGISTERED, events), n);
  }
}
