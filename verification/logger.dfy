/** The iterative heartbeat metrics of logger.c. Timestamps and metrics are mathematical
    integers here; only the division is the truncating one of C. */
module HbMetrics {
  import opened Types

  function TruncDiv(a: int, n: int): int
    requires n > 0
  {
    if a >= 0 then a / n else -((-a) / n)
  }

  function CalcAvg(avg: int, newVal: int, n: int): int {
    if n <= 0 then 0 else avg + TruncDiv(newVal - avg, n)
  }

  function Abs(x: int): nat {
    if x < 0 then -x else x
  }

  // ---------- the running average ----------

  function Average(xs: seq<int>): int {
    if xs == [] then 0 else CalcAvg(Average(xs[..|xs| - 1]), xs[|xs| - 1], |xs|)
  }

  function Sum(xs: seq<int>): int {
    if xs == [] then 0 else Sum(xs[..|xs| - 1]) + xs[|xs| - 1]
  }

  // Running extremes that start from an initial value.
  function Highest(init: int, xs: seq<int>): (m: int)
    ensures m >= init && (forall x :: x in xs ==> x <= m) && (m == init || m in xs)
  {
    if xs == [] then init
    else
      var rest := Highest(init, xs[..|xs| - 1]);
      assert xs == xs[..|xs| - 1] + [xs[|xs| - 1]];
      if rest < xs[|xs| - 1] then xs[|xs| - 1] else rest
  }

  function Lowest(init: int, xs: seq<int>): (m: int)
    ensures m <= init && (forall x :: x in xs ==> m <= x) && (m == init || m in xs)
  {
    if xs == [] then init
    else
      var rest := Lowest(init, xs[..|xs| - 1]);
      assert xs == xs[..|xs| - 1] + [xs[|xs| - 1]];
      if rest > xs[|xs| - 1] then xs[|xs| - 1] else rest
  }

  // Truncation loses less than n of n times the quotient and moves it toward zero.
  lemma TruncDivError(a: int, n: int)
    requires n > 0
    ensures -n < a - n * TruncDiv(a, n) < n
    ensures a >= 0 ==> 0 <= TruncDiv(a, n) <= a
    ensures a <= 0 ==> a <= TruncDiv(a, n) <= 0
  {
    var m := if a >= 0 then a else -a;
    assert m == n * (m / n) + m % n;
    QuotientBelow(m, n);
    assert n * -(m / n) == -(n * (m / n));
  }

  lemma QuotientBelow(m: nat, n: int)
    requires n > 0
    ensures 0 <= m / n <= m
  {
    if m / n > m {
      MulGrows(n, m / n);
    }
  }

  // One value moves the average toward itself by an nth of their distance, rounded toward the
  // old average.
  lemma AverageStep(avg: int, x: int, n: int)
    requires n > 0
    ensures var d := CalcAvg(avg, x, n) - avg;
      Abs(n * d) <= Abs(x - avg) < Abs(n * d) + n && (x >= avg ==> d >= 0) && (x <= avg ==> d <= 0)
  {
    TruncDivError(x - avg, n);
    var m := Abs(x - avg);
    assert m == n * (m / n) + m % n;
    assert n * -(m / n) == -(n * (m / n));
  }

  // The average never leaves the range of the values averaged.
  lemma {:induction false} AverageInRange(xs: seq<int>, lo: int, hi: int)
    requires xs != [] && forall x :: x in xs ==> lo <= x <= hi
    ensures lo <= Average(xs) <= hi
    decreases |xs|
  {
    var rest, last := xs[..|xs| - 1], xs[|xs| - 1];
    assert last in xs && forall x :: x in rest ==> x in xs;
    if rest == [] {
      assert TruncDiv(last, 1) == last;
    } else {
      AverageInRange(rest, lo, hi);
      TruncDivError(last - Average(rest), |xs|);
    }
  }

  // What n times the average misses the sum by.
  function Drift(xs: seq<int>): int {
    |xs| * Average(xs) - Sum(xs)
  }

  function Pairs(n: nat): nat {
    if n == 0 then 0 else Pairs(n - 1) + n - 1
  }

  lemma {:induction false} PairsClosedForm(n: nat)
    ensures 2 * Pairs(n) == n * (n - 1)
  {
    if n > 0 {
      PairsClosedForm(n - 1);
      assert n * (n - 1) == (n - 1) * (n - 2) + 2 * (n - 1);
    }
  }

  // One more value adds only the remainder of its division to the drift.
  lemma DriftStep(n: int, avg: int, q: int, last: int, sum: int)
    ensures n * (avg + q) - (sum + last) == ((n - 1) * avg - sum) - ((last - avg) - n * q)
  {
  }

  // |n * average - sum| <= n(n-1)/2.
  lemma {:induction false} AverageErrorBound(xs: seq<int>)
    ensures Abs(Drift(xs)) <= Pairs(|xs|)
    decreases |xs|
  {
    if xs != [] {
      var rest, last, n := xs[..|xs| - 1], xs[|xs| - 1], |xs|;
      AverageErrorBound(rest);
      var avg := Average(rest);
      hide TruncDiv;
      TruncDivError(last - avg, n);
      DriftStep(n, avg, TruncDiv(last - avg, n), last, Sum(rest));
    }
  }

  // ---------- metrics of one member ----------

  // struct ingress_hb_metrics
  datatype Metrics = Metrics(
    hbCounter: int,
    lastTs: int,
    lastDelta: int,
    avgLatency: int,
    maxLatency: int,
    minLatency: int,
    avgJitter: int,
    maxJitter: int,
    minJitter: int)

  // The reset of libasraft.c; ULONG_MAX stored in a signed 64-bit field is -1.
  const INITIAL := Metrics(0, 0, 0, 0, 0, -1, 0, 0, -1)

  function InHb(m: Metrics, hbi: int, tcs: int): Metrics {
    var counted := m.(hbCounter := m.hbCounter + 1, lastTs := tcs);
    if m.lastTs == 0 then counted
    else
      var delta := tcs - m.lastTs;
      var jitter := hbi - delta;
      counted.(lastDelta := delta,
               avgLatency := CalcAvg(m.avgLatency, delta, m.hbCounter),
               maxLatency := Max(m.maxLatency, delta),
               minLatency := Min(m.minLatency, delta),
               avgJitter := CalcAvg(m.avgJitter, jitter, m.hbCounter),
               maxJitter := Max(m.maxJitter, jitter),
               minJitter := Min(m.minJitter, jitter))
  }

  class IngressHbMetrics {
    var hbCounter: int
    var lastTs: int
    var lastDelta: int
    var avgLatency: int
    var maxLatency: int
    var minLatency: int
    var avgJitter: int
    var maxJitter: int
    var minJitter: int

    ghost function View(): Metrics
      reads this
    {
      Metrics(hbCounter, lastTs, lastDelta, avgLatency, maxLatency, minLatency, avgJitter, maxJitter, minJitter)
    }

    constructor ()
      ensures View() == INITIAL
    {
      hbCounter, lastTs, lastDelta := 0, 0, 0;
      avgLatency, maxLatency, minLatency := 0, 0, -1;
      avgJitter, maxJitter, minJitter := 0, 0, -1;
    }

    method WriteInHbToLog(hbi: int, tcs: int)
      modifies this
      ensures View() == InHb(old(View()), hbi, tcs)
    {
      hbCounter := hbCounter + 1;
      if lastTs != 0 {
        var delta := tcs - lastTs;
        lastDelta := delta;
        avgLatency := CalcAvg(avgLatency, delta, hbCounter - 1);
        if maxLatency < delta {
          maxLatency := delta;
        }
        if minLatency > delta {
          minLatency := delta;
        }
        var jitter := hbi - delta;
        avgJitter := CalcAvg(avgJitter, jitter, hbCounter - 1);
        if maxJitter < jitter {
          maxJitter := jitter;
        }
        if minJitter > jitter {
          minJitter := jitter;
        }
      }
      lastTs := tcs;
    }
  }

  // ---------- runs of heartbeats ----------

  function After(hbi: int, stamps: seq<int>): Metrics {
    if stamps == [] then INITIAL else InHb(After(hbi, stamps[..|stamps| - 1]), hbi, stamps[|stamps| - 1])
  }

  function Latencies(stamps: seq<int>): (ds: seq<int>)
    ensures |ds| == if stamps == [] then 0 else |stamps| - 1
  {
    seq(if stamps == [] then 0 else |stamps| - 1, i requires 0 <= i < |stamps| - 1 => stamps[i + 1] - stamps[i])
  }

  function Jitters(hbi: int, ds: seq<int>): (js: seq<int>)
    ensures |js| == |ds|
  {
    seq(|ds|, i requires 0 <= i < |ds| => hbi - ds[i])
  }

  ghost predicate Averages(m: Metrics, ds: seq<int>, js: seq<int>) {
    && m.avgLatency == Average(ds) && m.avgJitter == Average(js)
    && m.maxLatency == Highest(0, ds) && m.maxJitter == Highest(0, js)
    && m.minLatency == Lowest(-1, ds) && m.minJitter == Lowest(-1, js)
    && m.lastDelta == (if ds == [] then 0 else ds[|ds| - 1])
  }

  ghost predicate Summarises(m: Metrics, hbi: int, stamps: seq<int>) {
    && m.hbCounter == |stamps| && m.lastTs == (if stamps == [] then 0 else stamps[|stamps| - 1])
    && Averages(m, Latencies(stamps), Jitters(hbi, Latencies(stamps)))
  }

  lemma OneMoreValue(xs: seq<int>, x: int)
    ensures Average(xs + [x]) == CalcAvg(Average(xs), x, |xs| + 1)
    ensures Highest(0, xs + [x]) == Max(Highest(0, xs), x)
    ensures Lowest(-1, xs + [x]) == Min(Lowest(-1, xs), x)
  {
    assert (xs + [x])[..|xs|] == xs;
    hide CalcAvg;
  }

  lemma OneMoreStamp(hbi: int, stamps: seq<int>, tcs: int)
    requires stamps != []
    ensures var delta := tcs - stamps[|stamps| - 1];
      && Latencies(stamps + [tcs]) == Latencies(stamps) + [delta]
      && Jitters(hbi, Latencies(stamps + [tcs])) == Jitters(hbi, Latencies(stamps)) + [hbi - delta]
  {
  }

  lemma FirstHeartbeat(hbi: int, tcs: int)
    ensures Summarises(InHb(INITIAL, hbi, tcs), hbi, [tcs])
  {
    assert Latencies([tcs]) == [] && Jitters(hbi, []) == [];
  }

  lemma InHbAverages(m: Metrics, hbi: int, tcs: int, ds: seq<int>, js: seq<int>)
    requires Averages(m, ds, js) && m.lastTs != 0 && m.hbCounter == |ds| + 1 == |js| + 1
    ensures Averages(InHb(m, hbi, tcs), ds + [tcs - m.lastTs], js + [hbi - (tcs - m.lastTs)])
  {
    OneMoreValue(ds, tcs - m.lastTs);
    OneMoreValue(js, hbi - (tcs - m.lastTs));
    hide Average, Highest, Lowest, CalcAvg;
  }

  lemma LaterHeartbeat(m: Metrics, hbi: int, stamps: seq<int>, tcs: int)
    requires Summarises(m, hbi, stamps) && stamps != [] && m.lastTs > 0
    ensures Summarises(InHb(m, hbi, tcs), hbi, stamps + [tcs])
  {
    hide Averages, Latencies, Jitters, CalcAvg;
    var longer := stamps + [tcs];
    assert |longer| == |stamps| + 1 && longer[|longer| - 1] == tcs;
    InHbAverages(m, hbi, tcs, Latencies(stamps), Jitters(hbi, Latencies(stamps)));
    OneMoreStamp(hbi, stamps, tcs);
  }

  // However many heartbeats arrive, the metrics are those of all latencies so far.
  lemma {:induction false} MetricsSummarise(hbi: int, stamps: seq<int>)
    requires forall i :: 0 <= i < |stamps| ==> stamps[i] > 0
    ensures Summarises(After(hbi, stamps), hbi, stamps)
    decreases |stamps|
  {
    if stamps == [] {
      assert Latencies([]) == [] && Jitters(hbi, []) == [];
    } else {
      var before, tcs := stamps[..|stamps| - 1], stamps[|stamps| - 1];
      MetricsSummarise(hbi, before);
      assert before + [tcs] == stamps;
      if before == [] {
        FirstHeartbeat(hbi, tcs);
      } else {
        LaterHeartbeat(After(hbi, before), hbi, before, tcs);
      }
      hide InHb;
    }
  }

  lemma JittersInRange(hbi: int, ds: seq<int>, lo: int, hi: int)
    requires forall d :: d in ds ==> lo <= d <= hi
    ensures forall j :: j in Jitters(hbi, ds) ==> hbi - hi <= j <= hbi - lo
  {
    assert forall i :: 0 <= i < |ds| ==> Jitters(hbi, ds)[i] == hbi - ds[i] && ds[i] in ds;
  }

  // The stored averages stay within the range of what they average, and n times an
  // average misses the sum by at most n(n-1)/2.
  lemma AveragesAreBounded(hbi: int, stamps: seq<int>, lo: int, hi: int)
    requires |stamps| >= 2 && forall i :: 0 <= i < |stamps| ==> stamps[i] > 0
    requires forall d :: d in Latencies(stamps) ==> lo <= d <= hi
    ensures var m, n, ds := After(hbi, stamps), |stamps| - 1, Latencies(stamps);
      && lo <= m.avgLatency <= hi && hbi - hi <= m.avgJitter <= hbi - lo
      && Abs(n * m.avgLatency - Sum(ds)) <= Pairs(n)
      && Abs(n * m.avgJitter - Sum(Jitters(hbi, ds))) <= Pairs(n)
      && 2 * Pairs(n) == n * (n - 1)
  {
    MetricsSummarise(hbi, stamps);
    var ds, js := Latencies(stamps), Jitters(hbi, Latencies(stamps));
    JittersInRange(hbi, ds, lo, hi);
    hide Average, Sum, After, Pairs, Highest, Lowest, Jitters, Latencies, Abs;
    AverageInRange(ds, lo, hi);
    AverageInRange(js, hbi - hi, hbi - lo);
    AverageErrorBound(ds);
    AverageErrorBound(js);
    PairsClosedForm(|stamps| - 1);
  }

  // min_latency is one of the latencies exactly when one of them is negative: with a
  // monotone clock it keeps its initial value and is no minimum.
  lemma MinLatencyIsAMinimum(hbi: int, stamps: seq<int>)
    requires forall i :: 0 <= i < |stamps| ==> stamps[i] > 0
    ensures After(hbi, stamps).minLatency in Latencies(stamps) <==> exists d :: d in Latencies(stamps) && d < 0
  {
    MetricsSummarise(hbi, stamps);
    var ds := Latencies(stamps);
    if d :| d in ds && d < 0 {
      assert Lowest(-1, ds) <= d;
      if Lowest(-1, ds) == -1 {
        assert d == -1;
      }
    }
  }
}
