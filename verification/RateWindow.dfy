/** The rate limit of public groups: a sliding window over 64-bit timestamps that forgets old ones. */
module RateWindow {
  import opened Wrappers

  type U64 = t: nat | t < 0x1_0000_0000_0000_0000

  // ---------------------------------------------------------------- one call

  /** Unsigned subtraction: it wraps around when the window is longer than the time. */
  function Cutoff(now: U64, window: U64): U64 {
    if window <= now then now - window else now - window + 0x1_0000_0000_0000_0000
  }

  /** The timestamps later than a time. */
  function Later(times: seq<U64>, t: int): seq<U64> {
    if times == [] then []
    else (if times[0] > t then [times[0]] else []) + Later(times[1..], t)
  }

  /** The answer, and the timestamps kept. A sender's first call is not checked. */
  function Check(kept: Option<seq<U64>>, max: nat, window: U64, now: U64): (bool, seq<U64>) {
    match kept
    case None => (true, [now])
    case Some(times) =>
      var valid := Later(times, Cutoff(now, window));
      if |valid| >= max then (false, valid) else (true, valid + [now])
  }

  type GroupId = Bytes

  type Sender = Bytes

  class RateLimiter {
    var rateLimits: map<GroupId, map<Sender, seq<U64>>>

    constructor ()
      ensures rateLimits == map[]
    {
      rateLimits := map[];
    }

    function Kept(g: GroupId, s: Sender): Option<seq<U64>>
      reads this
    {
      if g in rateLimits && s in rateLimits[g] then Some(rateLimits[g][s]) else None
    }

    /** Groups get their map of timestamps when they are made. */
    method CheckRateLimit(g: GroupId, s: Sender, max: U64, window: U64, now: U64) returns (allowed: bool)
      requires g in rateLimits
      modifies this
      ensures (allowed, rateLimits) ==
              (Check(old(Kept(g, s)), max, window, now).0,
               old(rateLimits)[g := old(rateLimits)[g][s := Check(old(Kept(g, s)), max, window, now).1]])
    {
      if s !in rateLimits[g] {
        rateLimits := rateLimits[g := rateLimits[g][s := [now]]];
        return true;
      }
      var timestamps := rateLimits[g][s];
      var cutoff := Cutoff(now, window);
      var valid, n := [], 0;
      while n < |timestamps|
        invariant n <= |timestamps|
        invariant valid + Later(timestamps[n..], cutoff) == Later(timestamps, cutoff)
      {
        if timestamps[n] > cutoff {
          valid := valid + [timestamps[n]];
        }
        n := n + 1;
      }
      assert timestamps[n..] == [] && valid == Later(timestamps, cutoff);
      if |valid| >= max {
        rateLimits := rateLimits[g := rateLimits[g][s := valid]];
        return false;
      }
      valid := valid + [now];
      rateLimits := rateLimits[g := rateLimits[g][s := valid]];
      return true;
    }
  }

  // ---------------------------------------------------------------- whole runs

  /** The answers to a sender's calls. */
  function Answers(kept: Option<seq<U64>>, max: nat, window: U64, calls: seq<U64>): seq<bool>
    decreases |calls|
  {
    if calls == [] then []
    else
      var (allowed, times) := Check(kept, max, window, calls[0]);
      [allowed] + Answers(Some(times), max, window, calls[1..])
  }

  /** The intended answers, from the full history: a call at t is allowed exactly if fewer than
      `max` allowed ones lie in the window that ends at t. */
  function Intended(history: seq<U64>, max: nat, window: U64, calls: seq<U64>): seq<bool>
    decreases |calls|
  {
    if calls == [] then []
    else
      var allowed := |Later(history, calls[0] - window)| < max;
      [allowed] + Intended(if allowed then history + [calls[0]] else history, max, window, calls[1..])
  }

  predicate Ordered(start: U64, calls: seq<U64>) {
    && (forall k | 0 <= k < |calls| :: start <= calls[k])
    && (forall j, k | 0 <= j < k < |calls| :: calls[j] <= calls[k])
  }

  lemma {:induction false} LaterConcat(a: seq<U64>, b: seq<U64>, t: int)
    ensures Later(a + b, t) == Later(a, t) + Later(b, t)
  {
    if a == [] {
      assert a + b == b;
    } else {
      assert (a + b)[1..] == a[1..] + b;
      LaterConcat(a[1..], b, t);
    }
  }

  lemma {:induction false} LaterTwice(a: seq<U64>, t: int, u: int)
    requires t <= u
    ensures Later(Later(a, t), u) == Later(a, u)
  {
    if a != [] {
      LaterTwice(a[1..], t, u);
      var first := if a[0] > t then [a[0]] else [];
      LaterConcat(first, Later(a[1..], t), u);
      assert first == [] || first[1..] == [];
    }
  }

  /** The kept timestamps agree with the history from a time on. */
  ghost predicate Agrees(times: seq<U64>, history: seq<U64>, t: int) {
    forall u: int | u >= t :: Later(times, u) == Later(history, u)
  }

  lemma {:induction false} AnswersIntended(times: seq<U64>, history: seq<U64>, max: nat, window: U64, calls: seq<U64>,
                                           start: U64)
    requires window <= start && Ordered(start, calls) && Agrees(times, history, start - window)
    ensures Answers(Some(times), max, window, calls) == Intended(history, max, window, calls)
    decreases |calls|
  {
    if calls != [] {
      var now := calls[0];
      var valid := Later(times, now - window);
      assert valid == Later(history, now - window);
      var (allowed, times') := Check(Some(times), max, window, now);
      var history' := if allowed then history + [now] else history;
      forall u: int | u >= now - window
        ensures Later(times', u) == Later(history', u)
      {
        LaterTwice(times, now - window, u);
        LaterConcat(valid, [now], u);
        LaterConcat(history, [now], u);
      }
      AnswersIntended(times', history', max, window, calls[1..], now);
    }
  }

  /** Forgetting old timestamps does not show, once the clock has passed the window length. */
  lemma RefinesHistory(max: nat, window: U64, calls: seq<U64>)
    requires max >= 1 && Ordered(window, calls)
    ensures Answers(None, max, window, calls) == Intended([], max, window, calls)
  {
    if calls != [] {
      var now := calls[0];
      assert [] + [now] == [now];
      AnswersIntended([now], [now], max, window, calls[1..], now);
    }
  }

  lemma {:induction false} AlwaysAllowed(times: seq<U64>, max: nat, window: U64, now: U64, n: nat)
    requires max >= 1 && now < window && forall k | 0 <= k < |times| :: times[k] <= now
    ensures Answers(Some(times), max, window, seq(n, i => now)) == seq(n, i => true)
    decreases n
  {
    if n > 0 {
      NoneLater(times, Cutoff(now, window));
      assert Check(Some(times), max, window, now) == (true, [] + [now]);
      AlwaysAllowed([] + [now], max, window, now, n - 1);
      assert seq(n, i => now)[1..] == seq(n - 1, i => now);
      assert seq(n, i => true) == [true] + seq(n - 1, i => true);
    }
  }

  lemma {:induction false} NoneLater(times: seq<U64>, t: int)
    requires forall k | 0 <= k < |times| :: times[k] <= t
    ensures Later(times, t) == []
  {
    if times != [] {
      NoneLater(times[1..], t);
    }
  }

  lemma {:induction false} AllLater(times: seq<U64>, t: int)
    requires t < 0
    ensures Later(times, t) == times
  {
    if times != [] {
      AllLater(times[1..], t);
    }
  }

  lemma {:induction false} IntendedStops(history: seq<U64>, max: nat, window: U64, now: U64, n: nat)
    requires now < window && |history| <= max && n == max - |history| + 1
    ensures Intended(history, max, window, seq(n, i => now)) != seq(n, i => true)
    decreases n
  {
    AllLater(history, now - window);
    var calls := seq(n, i => now);
    assert calls[1..] == seq(n - 1, i => now);
    if |history| < max {
      IntendedStops(history + [now], max, window, now, n - 1);
      assert seq(n, i => true)[1..] == seq(n - 1, i => true);
      assert Intended(history, max, window, calls)[1..] == Intended(history + [now], max, window, calls[1..]);
    } else {
      assert !Intended(history, max, window, calls)[0];
    }
  }

  /** From a time on, the answers are the intended ones in every run exactly if the window is not
      longer than that time: an earlier call makes the cutoff wrap around and forgets everything. */
  lemma ExactFromWindowOn(max: nat, window: U64, start: U64)
    requires max >= 1
    ensures (forall calls | Ordered(start, calls) ::
               Answers(None, max, window, calls) == Intended([], max, window, calls))
            <==> window <= start
  {
    if window <= start {
      forall calls | Ordered(start, calls)
        ensures Answers(None, max, window, calls) == Intended([], max, window, calls)
      {
        RefinesHistory(max, window, calls);
      }
    } else {
      var calls: seq<U64> := seq(max + 1, i => start);
      assert Ordered(start, calls);
      IntendedStops([], max, window, start, max + 1);
      AlwaysAllowed([start], max, window, start, max);
      assert calls[1..] == seq(max, i => start);
      assert seq(max + 1, i => true) == [true] + seq(max, i => true);
      assert Answers(None, max, window, calls) == seq(max + 1, i => true);
    }
  }

  /** With a maximum of zero, exactly the first call is still allowed. */
  lemma {:induction false} ZeroAllowsFirst(window: U64, calls: seq<U64>)
    requires calls != []
    ensures Answers(None, 0, window, calls) == [true] + seq(|calls| - 1, i => false)
  {
    ZeroRejects([calls[0]], window, calls[1..]);
  }

  lemma {:induction false} ZeroRejects(times: seq<U64>, window: U64, calls: seq<U64>)
    ensures Answers(Some(times), 0, window, calls) == seq(|calls|, i => false)
    decreases |calls|
  {
    if calls != [] {
      ZeroRejects(Later(times, Cutoff(calls[0], window)), window, calls[1..]);
    }
  }

  // ---------------------------------------------------------------- the limit

  /** The calls that were allowed. */
  function Allowed(calls: seq<U64>, answers: seq<bool>): seq<U64>
    requires |calls| == |answers|
  {
    if calls == [] then [] else (if answers[0] then [calls[0]] else []) + Allowed(calls[1..], answers[1..])
  }

  /** The times in a window that starts after `lo`. */
  function Between(times: seq<U64>, lo: int, window: U64): seq<U64> {
    if times == [] then []
    else (if lo < times[0] <= lo + window then [times[0]] else []) + Between(times[1..], lo, window)
  }

  lemma {:induction false} BetweenConcat(a: seq<U64>, b: seq<U64>, lo: int, window: U64)
    ensures Between(a + b, lo, window) == Between(a, lo, window) + Between(b, lo, window)
  {
    if a == [] {
      assert a + b == b;
    } else {
      assert (a + b)[1..] == a[1..] + b;
      BetweenConcat(a[1..], b, lo, window);
    }
  }

  lemma {:induction false} BetweenFewer(times: seq<U64>, lo: int, window: U64, t: int)
    requires t <= lo
    ensures |Between(times, lo, window)| <= |Later(times, t)|
  {
    if times != [] {
      BetweenFewer(times[1..], lo, window, t);
    }
  }

  ghost predicate Limited(history: seq<U64>, max: nat, window: U64) {
    forall lo: int :: |Between(history, lo, window)| <= max
  }

  lemma {:induction false} IntendedLimited(history: seq<U64>, max: nat, window: U64, calls: seq<U64>)
    requires Limited(history, max, window)
    ensures |Intended(history, max, window, calls)| == |calls|
    ensures Limited(history + Allowed(calls, Intended(history, max, window, calls)), max, window)
    decreases |calls|
  {
    var answers := Intended(history, max, window, calls);
    if calls == [] {
      assert history + [] == history;
    } else {
      var now := calls[0];
      var allowed := |Later(history, now - window)| < max;
      var history' := if allowed then history + [now] else history;
      forall lo: int
        ensures |Between(history', lo, window)| <= max
      {
        BetweenConcat(history, [now], lo, window);
        if now <= lo + window {
          BetweenFewer(history, lo, window, now - window);
        }
      }
      IntendedLimited(history', max, window, calls[1..]);
      assert answers[1..] == Intended(history', max, window, calls[1..]);
      assert history + Allowed(calls, answers) == history' + Allowed(calls[1..], answers[1..]);
    }
  }

  /** Over any run no window of the given length holds more allowed calls than the maximum. */
  lemma WindowsLimited(max: nat, window: U64, calls: seq<U64>, lo: int)
    requires max >= 1 && Ordered(window, calls)
    ensures |Answers(None, max, window, calls)| == |calls|
    ensures |Between(Allowed(calls, Answers(None, max, window, calls)), lo, window)| <= max
  {
    RefinesHistory(max, window, calls);
    IntendedLimited([], max, window, calls);
    var times := Allowed(calls, Answers(None, max, window, calls));
    assert [] + times == times;
  }
}
