/** Connection metrics: an integer running average, and a history of bounded length. */
module Metrics {
  import opened Wrappers

  const MAX_HISTORY: nat := 100

  datatype Event =
    | Connected(peer: Bytes, timestamp: nat, latency: int)
    | Disconnected(peer: Bytes, timestamp: nat)

  datatype View = View(connections: nat, disconnections: nat, current: nat, average: int, history: seq<Event>)

  const START := View(0, 0, 0, 0, [])

  /** Division of signed integers that truncates towards zero. */
  function Quotient(a: int, n: nat): int
    requires n > 0
  {
    if a >= 0 then a / n else -(-a / n)
  }

  function Averaged(average: int, total: nat, latency: int): int
    requires total > 0
  {
    if total == 1 then latency else Quotient(average * (total - 1) + latency, total)
  }

  function Trimmed(history: seq<Event>): seq<Event> {
    if |history| > MAX_HISTORY then history[|history| - MAX_HISTORY..] else history
  }

  function Recorded(v: View, e: Event): View {
    match e
    case Connected(_, _, latency) =>
      View(v.connections + 1, v.disconnections, v.current + 1, Averaged(v.average, v.connections + 1, latency),
           Trimmed(v.history + [e]))
    case Disconnected(_, _) =>
      View(v.connections, v.disconnections + 1, if v.current > 0 then v.current - 1 else 0, v.average,
           Trimmed(v.history + [e]))
  }

  class MetricsCollector {
    var totalConnections: nat
    var totalDisconnections: nat
    var currentConnections: nat
    var averageLatencyMs: int
    var connectionHistory: seq<Event>

    ghost function Now(): View
      reads this
    {
      View(totalConnections, totalDisconnections, currentConnections, averageLatencyMs, connectionHistory)
    }

    constructor ()
      ensures Now() == START
    {
      totalConnections, totalDisconnections, currentConnections, averageLatencyMs := 0, 0, 0, 0;
      connectionHistory := [];
    }

    method RecordConnection(peer: Bytes, latency: int, now: nat)
      modifies this
      ensures Now() == Recorded(old(Now()), Connected(peer, now, latency))
    {
      totalConnections := totalConnections + 1;
      currentConnections := currentConnections + 1;
      AddConnectionEvent(Connected(peer, now, latency));
      UpdateAverageLatency(latency);
    }

    method RecordDisconnection(peer: Bytes, now: nat)
      modifies this
      ensures Now() == Recorded(old(Now()), Disconnected(peer, now))
    {
      totalDisconnections := totalDisconnections + 1;
      if currentConnections > 0 {
        currentConnections := currentConnections - 1;
      }
      AddConnectionEvent(Disconnected(peer, now));
    }

    method AddConnectionEvent(e: Event)
      modifies `connectionHistory
      ensures connectionHistory == Trimmed(old(connectionHistory) + [e])
    {
      connectionHistory := connectionHistory + [e];
      if |connectionHistory| > MAX_HISTORY {
        connectionHistory := connectionHistory[|connectionHistory| - MAX_HISTORY..];
      }
    }

    method UpdateAverageLatency(newLatency: int)
      requires totalConnections > 0
      modifies `averageLatencyMs
      ensures averageLatencyMs == Averaged(old(averageLatencyMs), totalConnections, newLatency)
    {
      if totalConnections == 1 {
        averageLatencyMs := newLatency;
        return;
      }
      var oldTotal := averageLatencyMs * (totalConnections - 1);
      averageLatencyMs := Quotient(oldTotal + newLatency, totalConnections);
    }
  }

  // ---------------------------------------------------------------- whole runs

  function After(run: seq<Event>): View
    decreases |run|
  {
    if run == [] then START else Recorded(After(run[..|run| - 1]), run[|run| - 1])
  }

  /** The latencies of the connections of a run. */
  function Latencies(run: seq<Event>): seq<int>
    decreases |run|
  {
    if run == [] then []
    else Latencies(run[..|run| - 1]) + if run[|run| - 1].Connected? then [run[|run| - 1].latency] else []
  }

  function Sum(a: seq<int>): int {
    if a == [] then 0 else Sum(a[..|a| - 1]) + a[|a| - 1]
  }

  lemma TimesMonotone(n: nat, x: int, y: int)
    requires x <= y
    ensures n * x <= n * y
  {
  }

  lemma TimesCancels(n: nat, x: int, y: int)
    requires n * x < n * (y + 1)
    ensures x <= y
  {
    if x > y {
      TimesMonotone(n, y + 1, x);
    }
  }

  lemma QuotientBounds(a: int, n: nat)
    requires n > 0
    ensures -(n as int) < a - n * Quotient(a, n) < n
    ensures a >= 0 ==> 0 <= a - n * Quotient(a, n)
    ensures a <= 0 ==> a - n * Quotient(a, n) <= 0
  {
    var b: nat := if a >= 0 then a else -a;
    var q, r := b / n, b % n;
    assert b == n * q + r;
    if a < 0 {
      assert n * -q == -(n * q);
    }
  }

  lemma QuotientBetween(a: int, n: nat, lo: int, hi: int)
    requires n > 0 && n * lo <= a <= n * hi
    ensures lo <= Quotient(a, n) <= hi
  {
    var q := Quotient(a, n);
    QuotientBounds(a, n);
    assert n * (q + 1) == n * q + n && n * (hi + 1) == n * hi + n && n * (lo - 1) == n * lo - n;
    if a >= 0 {
      TimesCancels(n, lo, q);
      TimesCancels(n, q, hi);
    } else {
      QuotientBounds(-a, n);
      assert n * -q == -(n * q) && n * -hi == -(n * hi) && n * -lo == -(n * lo);
      assert n * (-q + 1) == n * -q + n && n * (-lo + 1) == n * -lo + n;
      TimesCancels(n, -hi, -q);
      TimesCancels(n, -q, -lo);
    }
  }

  function Triangle(n: nat): nat {
    if n == 0 then 0 else Triangle(n - 1) + n - 1
  }

  lemma TriangleStep(n: int)
    ensures (n - 1) * (n - 2) + 2 * (n - 1) == n * (n - 1)
  {
  }

  lemma {:induction false} TriangleIs(n: nat)
    ensures 2 * Triangle(n) == n * (n - 1)
  {
    if n > 0 {
      TriangleIs(n - 1);
      TriangleStep(n);
    }
  }

  predicate Within(latencies: seq<int>, lo: int, hi: int) {
    forall k | 0 <= k < |latencies| :: lo <= latencies[k] <= hi
  }

  /** What the average has lost, and where it lies. */
  predicate AverageOk(connections: nat, average: int, sum: int, lo: int, hi: int) {
    && -(Triangle(connections) as int) <= sum - connections * average <= Triangle(connections)
    && (lo >= 0 ==> connections * average <= sum)
    && (hi <= 0 ==> connections * average >= sum)
    && (connections > 0 ==> lo <= average <= hi)
    && (connections == 0 ==> average == 0)
  }

  /** One step loses less than one per connection, and stays between the bounds. */
  lemma StepLoss(n: nat, average: int, latency: int, lo: int, hi: int)
    requires n > 0 && lo <= average <= hi && lo <= latency <= hi
    ensures var q := Averaged(average, n + 1, latency);
            && -(n as int) <= n * average + latency - (n + 1) * q <= n
            && (lo >= 0 ==> (n + 1) * q <= n * average + latency)
            && (hi <= 0 ==> (n + 1) * q >= n * average + latency)
            && lo <= q <= hi
  {
    var a := n * average + latency;
    assert average * n == n * average;
    TimesMonotone(n, lo, average);
    TimesMonotone(n, average, hi);
    assert (n + 1) * lo == n * lo + lo && (n + 1) * hi == n * hi + hi;
    QuotientBounds(a, n + 1);
    QuotientBetween(a, n + 1, lo, hi);
    if lo >= 0 {
      TimesMonotone(n, 0, lo);
    }
    if hi <= 0 {
      TimesMonotone(n, hi, 0);
    }
  }

  lemma AverageStep(n: nat, average: int, sum: int, lo: int, hi: int, latency: int)
    requires AverageOk(n, average, sum, lo, hi) && lo <= latency <= hi
    ensures AverageOk(n + 1, Averaged(average, n + 1, latency), sum + latency, lo, hi)
  {
    if n > 0 {
      StepLoss(n, average, latency, lo, hi);
    }
  }

  lemma {:induction false} AverageInv(run: seq<Event>, lo: int, hi: int)
    requires Within(Latencies(run), lo, hi)
    ensures After(run).connections == |Latencies(run)|
    ensures AverageOk(After(run).connections, After(run).average, Sum(Latencies(run)), lo, hi)
    decreases |run|
  {
    if run != [] {
      var n := |run| - 1;
      var before, latencies := Latencies(run[..n]), Latencies(run);
      if run[n].Connected? {
        assert latencies[..|before|] == before;
        assert forall k | 0 <= k < |before| :: before[k] == latencies[k];
        AverageInv(run[..n], lo, hi);
        assert latencies[|before|] == run[n].latency;
        AverageStep(|before|, After(run[..n]).average, Sum(before), lo, hi, run[n].latency);
      } else {
        assert latencies == before;
        AverageInv(run[..n], lo, hi);
      }
    }
  }

  /** After n connections with latencies of sum S, |S - n * average| <= n (n - 1) / 2; the average never
      overstates non-negative latencies nor understates negative ones, and lies between the least and the
      greatest one. */
  lemma DriftBounded(run: seq<Event>, lo: int, hi: int)
    requires After(run).connections > 0 && Within(Latencies(run), lo, hi)
    ensures var n, drift := |Latencies(run)|, Sum(Latencies(run)) - |Latencies(run)| * After(run).average;
            && After(run).connections == n
            && -(n * (n - 1)) <= 2 * drift <= n * (n - 1)
            && (lo >= 0 ==> 0 <= drift)
            && (hi <= 0 ==> drift <= 0)
            && lo <= After(run).average <= hi
  {
    AverageInv(run, lo, hi);
    TriangleIs(After(run).connections);
  }

  /** The run with the latencies 0, 1, ..., n - 1. */
  function Rising(n: nat): seq<Event> {
    if n == 0 then [] else Rising(n - 1) + [Connected([], 0, n - 1)]
  }

  lemma {:induction false} RisingSum(n: nat)
    ensures var run := Rising(n);
            After(run).average == 0 && After(run).connections == n && Sum(Latencies(run)) == Triangle(n)
  {
    if n > 0 {
      RisingSum(n - 1);
      RisingStep(Rising(n - 1), n);
    }
  }

  lemma RisingStep(front: seq<Event>, n: nat)
    requires n > 0 && After(front).average == 0 && After(front).connections == n - 1
    requires Sum(Latencies(front)) == Triangle(n - 1)
    ensures var run := front + [Connected([], 0, n - 1)];
            After(run).average == 0 && After(run).connections == n && Sum(Latencies(run)) == Triangle(n)
  {
    var e := Connected([], 0, n - 1);
    RunMore(front, e);
    StaysZero(After(front), e);
  }

  /** The bound is reached: rising latencies leave the average at 0. */
  lemma DriftReached(n: nat)
    ensures var run := Rising(n);
            && After(run).average == 0 && After(run).connections == n
            && 2 * Sum(Latencies(run)) == n * (n - 1)
  {
    RisingSum(n);
    TriangleIs(n);
  }

  lemma RunMore(front: seq<Event>, e: Event)
    requires e.Connected?
    ensures After(front + [e]) == Recorded(After(front), e)
    ensures Sum(Latencies(front + [e])) == Sum(Latencies(front)) + e.latency
  {
    var run := front + [e];
    assert run[..|run| - 1] == front;
    var before := Latencies(front);
    assert (before + [e.latency])[..|before|] == before;
  }

  lemma StaysZero(v: View, e: Event)
    requires v.average == 0 && e.Connected? && e.latency == v.connections
    ensures Recorded(v, e).average == 0 && Recorded(v, e).connections == v.connections + 1
  {
    var n := v.connections + 1;
    assert (n - 1) / n == 0;
    assert v.average * (n - 1) == 0;
  }

  function Recent(run: seq<Event>): seq<Event> {
    if |run| > 100 then run[|run| - 100..] else run
  }

  lemma TrimmedRecent(run: seq<Event>, e: Event)
    ensures Trimmed(Recent(run) + [e]) == Recent(run + [e])
  {
  }

  /** The history is the last hundred events. */
  lemma {:induction false} HistoryIsRecent(run: seq<Event>)
    ensures After(run).history == Recent(run)
    decreases |run|
  {
    if run != [] {
      var n := |run| - 1;
      HistoryIsRecent(run[..n]);
      TrimmedRecent(run[..n], run[n]);
      assert run == run[..n] + [run[n]];
    }
  }

  // ---------------------------------------------------------------- the counters

  function Connections(run: seq<Event>): nat {
    if run == [] then 0
    else Connections(run[..|run| - 1]) + if run[|run| - 1].Connected? then 1 else 0
  }

  function Disconnections(run: seq<Event>): nat {
    if run == [] then 0
    else Disconnections(run[..|run| - 1]) + if run[|run| - 1].Disconnected? then 1 else 0
  }

  /** How far connections exceed disconnections among the events after the first `n`. */
  function Excess(run: seq<Event>, n: nat): int
    requires n <= |run|
    decreases |run|
  {
    if n == |run| then 0 else Excess(run[..|run| - 1], n) + if run[|run| - 1].Connected? then 1 else -1
  }

  /** The largest excess of any last part of the run. */
  ghost predicate Peak(run: seq<Event>, peak: int) {
    && (forall n | 0 <= n <= |run| :: Excess(run, n) <= peak)
    && (exists n :: 0 <= n <= |run| && Excess(run, n) == peak)
  }

  lemma PeakStep(run: seq<Event>, peak: int, peak': int)
    requires run != [] && Peak(run[..|run| - 1], peak)
    requires peak' == if run[|run| - 1].Connected? then peak + 1 else if peak > 0 then peak - 1 else 0
    ensures Peak(run, peak')
  {
    var front := run[..|run| - 1];
    assert Excess(front, |front|) == 0 && Excess(run, |run|) == 0;
    var n :| 0 <= n <= |front| && Excess(front, n) == peak;
    assert Excess(run, n) == peak + if run[|run| - 1].Connected? then 1 else -1;
  }

  /** After any run the totals are the numbers of events of each kind, and the current connections are the
      largest excess of any last part of the run: a disconnection at zero is forgotten. */
  lemma {:induction false} CountersTold(run: seq<Event>)
    ensures After(run).connections == Connections(run) && After(run).disconnections == Disconnections(run)
    ensures Peak(run, After(run).current)
    decreases |run|
  {
    if run == [] {
      assert Excess(run, 0) == 0;
    } else {
      CountersTold(run[..|run| - 1]);
      PeakStep(run, After(run[..|run| - 1]).current, After(run).current);
    }
  }

  /** No first part of the run has more disconnections than connections. */
  predicate NeverBelow(run: seq<Event>) {
    run == [] || (NeverBelow(run[..|run| - 1]) && Disconnections(run) <= Connections(run))
  }

  /** The current connections are never less than the difference of the totals, and are that difference
      exactly if every disconnection ended a connection of the run. */
  lemma {:induction false} CurrentIsDifference(run: seq<Event>)
    ensures After(run).current >= Connections(run) - Disconnections(run)
    ensures After(run).current == Connections(run) - Disconnections(run) <==> NeverBelow(run)
    decreases |run|
  {
    if run != [] {
      CurrentIsDifference(run[..|run| - 1]);
    }
  }
}
