/** The handlers of a mailbox node, several at once. Each reads the clock, looks at the limit, stores,
    reads the clock again, and counts; the looking and the counting are under a lock, the readings are not,
    and the steps of the handlers interleave. */
module MailboxHandlers {
  import opened Wrappers
  import opened MailboxStorage
  import opened MailboxDeposit
  import Runs = MailboxRuns

  /** What a handler does next. The hours are readings of the clock. */
  datatype Phase =
    | Idle
    | Asking(sender: Sender, req: Request, hour: nat)     // looks at the limit
    | Passed(sender: Sender, req: Request)                // stores
    | Written(sender: Sender, req: Request)               // reads the clock to count
    | Counting(sender: Sender, req: Request, hour: nat)   // counts

  datatype Node = Node(store: Store, limits: Limits, handlers: seq<Phase>)

  /** Handler `i` takes its next step; an idle one takes up the request. */
  datatype Tick = Tick(i: nat, req: Request, now: nat)

  ghost function Step(p: Policy, s: Node, e: Tick): (s': Node)
    requires e.i < |s.handlers|
    ensures |s'.handlers| == |s.handlers|
  {
    match s.handlers[e.i]
    case Idle =>
      (match Checked(p, e.req)
       case Failure(_) => s
       case Success(sender) => s.(handlers := s.handlers[e.i := Asking(sender, e.req, Hour(e.now))]))
    case Asking(sender, req, hour) =>
      var limited := IsLimited(p, s.limits, sender, req.target, hour);
      s.(handlers := s.handlers[e.i := if limited then Idle else Passed(sender, req)])
    case Passed(sender, req) =>
      (match Saved(p, s.store, sender, req, e.now)
       case Failure(_) => s.(handlers := s.handlers[e.i := Idle])
       case Success(store) => s.(store := store, handlers := s.handlers[e.i := Written(sender, req)]))
    case Written(sender, req) =>
      s.(handlers := s.handlers[e.i := Counting(sender, req, Hour(e.now))])
    case Counting(sender, req, hour) =>
      s.(limits := Incremented(s.limits, sender, req.target, hour), handlers := s.handlers[e.i := Idle])
  }

  predicate Schedule(handlers: nat, start: nat, run: seq<Tick>) {
    && (forall k | 0 <= k < |run| :: run[k].i < handlers && start <= run[k].now)
    && (forall j, k | 0 <= j < k < |run| :: run[j].now <= run[k].now)
  }

  ghost function After(p: Policy, s: Node, run: seq<Tick>): (s': Node)
    requires Schedule(|s.handlers|, 0, run)
    ensures |s'.handlers| == |s.handlers|
    decreases |run|
  {
    if run == [] then s else After(p, Step(p, s, run[0]), run[1..])
  }

  /** The handler is at work on a deposit of the pair. */
  predicate For(h: Phase, sender: Sender, t: Target) {
    !h.Idle? && h.sender == sender && h.req.target == t
  }

  /** The step stores a deposit of the pair. */
  ghost predicate Accepts(p: Policy, s: Node, e: Tick, sender: Sender, t: Target)
    requires e.i < |s.handlers|
  {
    && s.handlers[e.i].Passed? && For(s.handlers[e.i], sender, t)
    && Saved(p, s.store, sender, s.handlers[e.i].req, e.now).Success?
  }

  ghost function Counted(p: Policy, s: Node, e: Tick, sender: Sender, t: Target, hour: nat): nat
    requires e.i < |s.handlers|
  {
    if Hour(e.now) == hour && Accepts(p, s, e, sender, t) then 1 else 0
  }

  /** How many deposits of the pair the run stores in an hour. */
  ghost function Accepted(p: Policy, s: Node, run: seq<Tick>, sender: Sender, t: Target, hour: nat): nat
    requires Schedule(|s.handlers|, 0, run)
    decreases |run|
  {
    if run == [] then 0
    else Counted(p, s, run[0], sender, t, hour) + Accepted(p, Step(p, s, run[0]), run[1..], sender, t, hour)
  }

  /** The step looks at the limit of the pair, or counts for it, with a reading of an earlier hour. */
  predicate UsesOldReading(s: Node, e: Tick, sender: Sender, t: Target)
    requires e.i < |s.handlers|
  {
    var h := s.handlers[e.i];
    For(h, sender, t) && (h.Asking? || h.Counting?) && h.hour != Hour(e.now)
  }

  /** In this hour no reading of an earlier one is used for the pair. */
  ghost predicate FreshReadings(p: Policy, s: Node, run: seq<Tick>, sender: Sender, t: Target, hour: nat)
    requires Schedule(|s.handlers|, 0, run)
    decreases |run|
  {
    run != [] ==>
      && !(Hour(run[0].now) == hour && UsesOldReading(s, run[0], sender, t))
      && FreshReadings(p, Step(p, s, run[0]), run[1..], sender, t, hour)
  }

  // ---------------------------------------------------------------- the bound

  /** The deposits of the pair that were not limited and are not counted yet. */
  predicate UnderWay(h: Phase, sender: Sender, t: Target) {
    !h.Asking? && For(h, sender, t)
  }

  predicate Stored(h: Phase, sender: Sender, t: Target) {
    (h.Written? || h.Counting?) && For(h, sender, t)
  }

  function InFlight(handlers: seq<Phase>, sender: Sender, t: Target): (n: nat)
    ensures n <= |handlers|
  {
    if handlers == [] then 0
    else (if UnderWay(handlers[0], sender, t) then 1 else 0) + InFlight(handlers[1..], sender, t)
  }

  function Uncounted(handlers: seq<Phase>, sender: Sender, t: Target): nat {
    if handlers == [] then 0
    else (if Stored(handlers[0], sender, t) then 1 else 0) + Uncounted(handlers[1..], sender, t)
  }

  lemma {:induction false} FewerUncounted(handlers: seq<Phase>, sender: Sender, t: Target)
    ensures Uncounted(handlers, sender, t) <= InFlight(handlers, sender, t)
  {
    if handlers != [] {
      FewerUncounted(handlers[1..], sender, t);
    }
  }

  lemma {:induction false} Replaced(handlers: seq<Phase>, i: nat, h: Phase, sender: Sender, t: Target)
    requires i < |handlers|
    ensures InFlight(handlers[i := h], sender, t)
            == InFlight(handlers, sender, t) + (if UnderWay(h, sender, t) then 1 else 0)
               - (if UnderWay(handlers[i], sender, t) then 1 else 0)
    ensures Uncounted(handlers[i := h], sender, t)
            == Uncounted(handlers, sender, t) + (if Stored(h, sender, t) then 1 else 0)
               - (if Stored(handlers[i], sender, t) then 1 else 0)
  {
    if i == 0 {
      assert handlers[0 := h][1..] == handlers[1..];
    } else {
      assert handlers[i := h][1..] == handlers[1..][i - 1 := h];
      Replaced(handlers[1..], i - 1, h, sender, t);
    }
  }

  function Bound(p: Policy, handlers: nat): nat {
    (if p.depositRateLimit == 0 then 0 else p.depositRateLimit - 1) + handlers
  }

  /** No entry of the pair and no reading is of a later hour. */
  ghost predicate Timely(s: Node, sender: Sender, t: Target, hour: nat) {
    && (sender in s.limits && t in s.limits[sender] ==> s.limits[sender][t].hourBucket <= hour)
    && (forall k | 0 <= k < |s.handlers| && (s.handlers[k].Asking? || s.handlers[k].Counting?) ::
        s.handlers[k].hour <= hour)
  }

  /** In this hour, what is counted and what is under way stay within the bound. */
  ghost predicate Bounded(p: Policy, s: Node, sender: Sender, t: Target, hour: nat) {
    CountIn(s.limits, sender, t, hour) + InFlight(s.handlers, sender, t) <= Bound(p, |s.handlers|)
  }

  lemma TimelyLater(s: Node, sender: Sender, t: Target, hour: nat, later: nat)
    requires Timely(s, sender, t, hour) && hour < later
    ensures Timely(s, sender, t, later) && CountIn(s.limits, sender, t, later) == 0
  {
  }

  lemma StepTimely(p: Policy, s: Node, e: Tick, sender: Sender, t: Target)
    requires e.i < |s.handlers| && Timely(s, sender, t, Hour(e.now))
    ensures Timely(Step(p, s, e), sender, t, Hour(e.now))
  {
  }

  lemma StepBounded(p: Policy, s: Node, e: Tick, sender: Sender, t: Target)
    requires e.i < |s.handlers| && Bounded(p, s, sender, t, Hour(e.now)) && !UsesOldReading(s, e, sender, t)
    ensures Bounded(p, Step(p, s, e), sender, t, Hour(e.now))
    ensures var s' := Step(p, s, e);
            CountIn(s'.limits, sender, t, Hour(e.now)) + Uncounted(s'.handlers, sender, t)
            == CountIn(s.limits, sender, t, Hour(e.now)) + Uncounted(s.handlers, sender, t)
               + if Accepts(p, s, e, sender, t) then 1 else 0
  {
    var s' := Step(p, s, e);
    Replaced(s.handlers, e.i, s'.handlers[e.i], sender, t);
    assert s'.handlers == s.handlers[e.i := s'.handlers[e.i]];
  }

  lemma {:induction false} AcceptedBound(p: Policy, s: Node, run: seq<Tick>, sender: Sender, t: Target, hour: nat,
                                         start: nat, soFar: nat)
    requires Schedule(|s.handlers|, start, run) && Timely(s, sender, t, Hour(start))
    requires FreshReadings(p, s, run, sender, t, hour)
    requires Hour(start) < hour ==> soFar == 0
    requires Hour(start) == hour ==>
               && Bounded(p, s, sender, t, hour)
               && soFar <= CountIn(s.limits, sender, t, hour) + Uncounted(s.handlers, sender, t)
    requires soFar <= Bound(p, |s.handlers|)
    ensures soFar + Accepted(p, s, run, sender, t, hour) <= Bound(p, |s.handlers|)
    decreases |run|
  {
    if run != [] {
      var e := run[0];
      var s' := Step(p, s, e);
      assert Hour(start) <= Hour(e.now);
      if Hour(start) < Hour(e.now) {
        TimelyLater(s, sender, t, Hour(start), Hour(e.now));
      }
      StepTimely(p, s, e, sender, t);
      if Hour(e.now) == hour {
        StepBounded(p, s, e, sender, t);
        FewerUncounted(s'.handlers, sender, t);
      }
      AcceptedBound(p, s', run[1..], sender, t, hour, e.now, soFar + Counted(p, s, e, sender, t, hour));
    }
  }

  function Begin(handlers: nat): Node {
    Node(EMPTY, map[], seq(handlers, i => Idle))
  }

  lemma {:induction false} NoneInFlight(handlers: seq<Phase>, sender: Sender, t: Target)
    requires forall k | 0 <= k < |handlers| :: handlers[k].Idle?
    ensures InFlight(handlers, sender, t) == Uncounted(handlers, sender, t) == 0
  {
    if handlers != [] {
      NoneInFlight(handlers[1..], sender, t);
    }
  }

  /** Over every schedule of n handlers, an hour in which no older reading is used for the pair stores at
      most limit + n - 1 of its deposits. A limit of zero bounds like a limit of one, as the first
      deposit has no entry. */
  lemma DepositsBounded(p: Policy, handlers: nat, run: seq<Tick>, sender: Sender, t: Target, hour: nat)
    requires Schedule(handlers, 0, run) && FreshReadings(p, Begin(handlers), run, sender, t, hour)
    ensures Accepted(p, Begin(handlers), run, sender, t, hour) <= Bound(p, handlers)
  {
    NoneInFlight(Begin(handlers).handlers, sender, t);
    AcceptedBound(p, Begin(handlers), run, sender, t, hour, 0, 0);
  }

  /** All readings are of the hour. */
  predicate ReadIn(s: Node, hour: nat) {
    forall k | 0 <= k < |s.handlers| && (s.handlers[k].Asking? || s.handlers[k].Counting?) :: s.handlers[k].hour == hour
  }

  lemma {:induction false} OneHourFresh(p: Policy, s: Node, run: seq<Tick>, sender: Sender, t: Target, hour: nat)
    requires Schedule(|s.handlers|, 0, run) && ReadIn(s, hour) && forall k | 0 <= k < |run| :: Hour(run[k].now) == hour
    ensures FreshReadings(p, s, run, sender, t, hour)
    decreases |run|
  {
    if run != [] {
      assert Hour(run[0].now) == hour;
      OneHourFresh(p, Step(p, s, run[0]), run[1..], sender, t, hour);
    }
  }

  /** In particular, n handlers whose steps all fall into one hour stay within the bound. */
  lemma OneHourBounded(p: Policy, handlers: nat, run: seq<Tick>, sender: Sender, t: Target, hour: nat)
    requires Schedule(handlers, 0, run) && forall k | 0 <= k < |run| :: Hour(run[k].now) == hour
    ensures Accepted(p, Begin(handlers), run, sender, t, hour) <= Bound(p, handlers)
  {
    OneHourFresh(p, Begin(handlers), run, sender, t, hour);
    DepositsBounded(p, handlers, run, sender, t, hour);
  }

  // ---------------------------------------------------------------- one handler

  /** What a single handler has stored in this hour is counted or about to be; a reading of an earlier
      hour means that nothing was. */
  ghost predicate OneBounded(p: Policy, s: Node, sender: Sender, t: Target, hour: nat, soFar: nat)
    requires |s.handlers| == 1
  {
    var h, n := s.handlers[0], CountIn(s.limits, sender, t, hour);
    && soFar <= n + (if Stored(h, sender, t) then 1 else 0)
    && n + (if UnderWay(h, sender, t) then 1 else 0) <= Bound(p, 1)
    && (For(h, sender, t) && (h.Asking? || h.Counting?) && h.hour != hour ==> n == 0 && soFar == 0)
  }

  lemma {:induction false} OneAcceptedBound(p: Policy, s: Node, run: seq<Tick>, sender: Sender, t: Target, hour: nat,
                                            start: nat, soFar: nat)
    requires |s.handlers| == 1 && Schedule(1, start, run) && Timely(s, sender, t, Hour(start))
             && p.depositRateLimit >= 1
    requires Hour(start) < hour ==> soFar == 0
    requires Hour(start) == hour ==> OneBounded(p, s, sender, t, hour, soFar)
    requires soFar <= Bound(p, 1)
    ensures soFar + Accepted(p, s, run, sender, t, hour) <= Bound(p, 1)
    decreases |run|
  {
    if run != [] {
      var e := run[0];
      assert Hour(start) <= Hour(e.now);
      if Hour(start) < Hour(e.now) {
        TimelyLater(s, sender, t, Hour(start), Hour(e.now));
      }
      StepTimely(p, s, e, sender, t);
      if Hour(e.now) == hour {
        assert OneBounded(p, s, sender, t, hour, soFar);
        OneStep(p, s, e, sender, t, soFar);
      }
      OneAcceptedBound(p, Step(p, s, e), run[1..], sender, t, hour, e.now, soFar + Counted(p, s, e, sender, t, hour));
    }
  }

  lemma OneStep(p: Policy, s: Node, e: Tick, sender: Sender, t: Target, soFar: nat)
    requires |s.handlers| == 1 && e.i == 0 && OneBounded(p, s, sender, t, Hour(e.now), soFar) && p.depositRateLimit >= 1
    ensures OneBounded(p, Step(p, s, e), sender, t, Hour(e.now), soFar + Counted(p, s, e, sender, t, Hour(e.now)))
  {
  }

  /** A single handler keeps the limit in every hour of every schedule, with old readings too. */
  lemma OneHandlerKeepsLimit(p: Policy, run: seq<Tick>, sender: Sender, t: Target, hour: nat)
    requires Schedule(1, 0, run) && p.depositRateLimit >= 1
    ensures Accepted(p, Begin(1), run, sender, t, hour) <= p.depositRateLimit
  {
    OneAcceptedBound(p, Begin(1), run, sender, t, hour, 0, 0);
  }

  // ---------------------------------------------------------------- schedules, step by step

  lemma {:induction false} Concat(p: Policy, s: Node, run: seq<Tick>, more: seq<Tick>, sender: Sender, t: Target,
                                  hour: nat)
    requires Schedule(|s.handlers|, 0, run) && Schedule(|s.handlers|, 0, more) && Schedule(|s.handlers|, 0, run + more)
    ensures After(p, s, run + more) == After(p, After(p, s, run), more)
    ensures Accepted(p, s, run + more, sender, t, hour)
            == Accepted(p, s, run, sender, t, hour) + Accepted(p, After(p, s, run), more, sender, t, hour)
    decreases |run|
  {
    if run == [] {
      assert run + more == more;
    } else {
      assert (run + more)[1..] == run[1..] + more;
      Concat(p, Step(p, s, run[0]), run[1..], more, sender, t, hour);
    }
  }

  /** A request that is never too large, from a sender that can be read. */
  predicate Fine(p: Policy, req: Request) {
    |req.envelope| <= p.storage.maxMessageSize && req.genuine && req.sender.Some?
  }

  predicate AllAt(run: seq<Tick>, handlers: nat, now: nat) {
    forall k | 0 <= k < |run| :: run[k].i < handlers && run[k].now == now
  }

  lemma Single(p: Policy, s: Node, e: Tick, sender: Sender, t: Target, hour: nat)
    requires e.i < |s.handlers|
    ensures After(p, s, [e]) == Step(p, s, e)
    ensures Accepted(p, s, [e], sender, t, hour) == Counted(p, s, e, sender, t, hour)
  {
    assert [e][1..] == [];
    assert Accepted(p, Step(p, s, e), [], sender, t, hour) == 0;
  }

  /** One more step at the same time. */
  lemma Extend(p: Policy, s: Node, run: seq<Tick>, e: Tick, sender: Sender, t: Target, hour: nat)
    requires AllAt(run, |s.handlers|, e.now) && e.i < |s.handlers|
    ensures AllAt(run + [e], |s.handlers|, e.now)
    ensures After(p, s, run + [e]) == Step(p, After(p, s, run), e)
    ensures Accepted(p, s, run + [e], sender, t, hour)
            == Accepted(p, s, run, sender, t, hour) + Counted(p, After(p, s, run), e, sender, t, hour)
  {
    Concat(p, s, run, [e], sender, t, hour);
    Single(p, After(p, s, run), e, sender, t, hour);
  }

  /** The request can be stored, and the node's state is the given one for its pair. */
  ghost predicate Ready(p: Policy, s: Node, req: Request, hour: nat, records: nat) {
    && Fine(p, req) && !IsLimited(p, s.limits, req.sender.value, req.target, hour)
    && MetaOf(s.store, req.target).count == records
  }

  /** An idle handler stores a deposit. */
  lemma StoreOne(p: Policy, s: Node, i: nat, req: Request, now: nat, records: nat) returns (run: seq<Tick>)
    requires i < |s.handlers| && s.handlers[i].Idle? && Ready(p, s, req, Hour(now), records)
             && records < p.storage.maxMessages
    ensures AllAt(run, |s.handlers|, now)
    ensures var s' := After(p, s, run);
            && s'.limits == s.limits && s'.handlers == s.handlers[i := Written(req.sender.value, req)]
            && MetaOf(s'.store, req.target).count == records + 1
    ensures Accepted(p, s, run, req.sender.value, req.target, Hour(now)) == 1
  {
    var e, sender, t := Tick(i, req, now), req.sender.value, req.target;
    Single(p, s, e, sender, t, Hour(now));
    var s1 := After(p, s, [e]);
    assert s1 == s.(handlers := s.handlers[i := Asking(sender, req, Hour(now))]);
    Extend(p, s, [e], e, sender, t, Hour(now));
    var s2 := After(p, s, [e] + [e]);
    assert s2 == s.(handlers := s.handlers[i := Passed(sender, req)]);
    Extend(p, s, [e] + [e], e, sender, t, Hour(now));
    assert Saved(p, s2.store, sender, req, now).Success?;
    run := [e] + [e] + [e];
    assert After(p, s, run).handlers == s.handlers[i := Written(sender, req)];
  }

  /** A handler that has stored a deposit counts it. */
  lemma CountOne(p: Policy, s: Node, i: nat, req: Request, now: nat) returns (run: seq<Tick>)
    requires i < |s.handlers| && Fine(p, req) && s.handlers[i] == Written(req.sender.value, req)
    ensures AllAt(run, |s.handlers|, now)
    ensures var s' := After(p, s, run);
            && s'.store == s.store && s'.handlers == s.handlers[i := Idle]
            && s'.limits == Incremented(s.limits, req.sender.value, req.target, Hour(now))
    ensures Accepted(p, s, run, req.sender.value, req.target, Hour(now)) == 0
  {
    var e, sender, t := Tick(i, req, now), req.sender.value, req.target;
    Single(p, s, e, sender, t, Hour(now));
    assert After(p, s, [e]) == s.(handlers := s.handlers[i := Counting(sender, req, Hour(now))]);
    Extend(p, s, [e], e, sender, t, Hour(now));
    run := [e] + [e];
    assert After(p, s, run).handlers == s.handlers[i := Idle];
  }

  /** An idle handler makes a deposit and counts it. */
  lemma DepositOne(p: Policy, s: Node, i: nat, req: Request, now: nat, records: nat) returns (run: seq<Tick>)
    requires i < |s.handlers| && s.handlers[i].Idle? && Ready(p, s, req, Hour(now), records)
             && records < p.storage.maxMessages
    ensures AllAt(run, |s.handlers|, now)
    ensures var s' := After(p, s, run);
            && s'.handlers == s.handlers && MetaOf(s'.store, req.target).count == records + 1
            && var n := CountIn(s.limits, req.sender.value, req.target, Hour(now)) + 1;
               && CountIn(s'.limits, req.sender.value, req.target, Hour(now)) == n
               && (n < p.depositRateLimit ==> Ready(p, s', req, Hour(now), records + 1))
    ensures Accepted(p, s, run, req.sender.value, req.target, Hour(now)) == 1
  {
    var stores := StoreOne(p, s, i, req, now, records);
    var counts := CountOne(p, After(p, s, stores), i, req, now);
    Concat(p, s, stores, counts, req.sender.value, req.target, Hour(now));
    run := stores + counts;
    assert After(p, s, run).handlers == s.handlers;
  }

  /** A handler makes one deposit after the other, up to the limit. */
  lemma {:induction false} OneByOne(p: Policy, s: Node, i: nat, req: Request, now: nat, records: nat, n: nat)
    returns (run: seq<Tick>)
    requires i < |s.handlers| && s.handlers[i].Idle? && Ready(p, s, req, Hour(now), records)
    requires CountIn(s.limits, req.sender.value, req.target, Hour(now)) == 0
    requires records + n <= p.storage.maxMessages && n <= p.depositRateLimit
    ensures AllAt(run, |s.handlers|, now) && (n == 0 ==> run == [])
    ensures var s' := After(p, s, run);
            && s'.handlers == s.handlers && CountIn(s'.limits, req.sender.value, req.target, Hour(now)) == n
            && (n < p.depositRateLimit ==> Ready(p, s', req, Hour(now), records + n))
            && MetaOf(s'.store, req.target).count == records + n
    ensures Accepted(p, s, run, req.sender.value, req.target, Hour(now)) == n
  {
    if n == 0 {
      run := [];
    } else {
      var before := OneByOne(p, s, i, req, now, records, n - 1);
      var last := DepositOne(p, After(p, s, before), i, req, now, records + n - 1);
      Concat(p, s, before, last, req.sender.value, req.target, Hour(now));
      run := before + last;
    }
  }

  /** The first `n` handlers find that they are not limited. */
  lemma {:induction false} AllCheck(p: Policy, s: Node, req: Request, now: nat, n: nat) returns (run: seq<Tick>)
    requires n <= |s.handlers| && (forall k | 0 <= k < n :: s.handlers[k].Idle?) && Fine(p, req)
    requires !IsLimited(p, s.limits, req.sender.value, req.target, Hour(now))
    ensures AllAt(run, |s.handlers|, now)
    ensures var s' := After(p, s, run);
            && s'.store == s.store && s'.limits == s.limits
            && (forall k | 0 <= k < n :: s'.handlers[k] == Passed(req.sender.value, req))
            && (forall k | n <= k < |s.handlers| :: s'.handlers[k] == s.handlers[k])
    ensures Accepted(p, s, run, req.sender.value, req.target, Hour(now)) == 0
  {
    if n == 0 {
      run := [];
    } else {
      var e, sender, t := Tick(n - 1, req, now), req.sender.value, req.target;
      var before := AllCheck(p, s, req, now, n - 1);
      assert After(p, s, before).handlers[n - 1] == s.handlers[n - 1];
      Extend(p, s, before, e, sender, t, Hour(now));
      assert After(p, s, before + [e]).handlers[n - 1] == Asking(sender, req, Hour(now));
      Extend(p, s, before + [e], e, sender, t, Hour(now));
      run := before + [e] + [e];
    }
  }

  /** Then they store. */
  lemma {:induction false} AllStore(p: Policy, s: Node, req: Request, now: nat, n: nat) returns (run: seq<Tick>)
    requires n <= |s.handlers| && Fine(p, req) && forall k | 0 <= k < n ::
             s.handlers[k] == Passed(req.sender.value, req)
    requires MetaOf(s.store, req.target).count + n <= p.storage.maxMessages
    ensures AllAt(run, |s.handlers|, now)
    ensures MetaOf(After(p, s, run).store, req.target).count == MetaOf(s.store, req.target).count + n
    ensures forall k | n <= k < |s.handlers| :: After(p, s, run).handlers[k] == s.handlers[k]
    ensures Accepted(p, s, run, req.sender.value, req.target, Hour(now)) == n
  {
    if n == 0 {
      run := [];
    } else {
      var e := Tick(n - 1, req, now);
      var before := AllStore(p, s, req, now, n - 1);
      assert After(p, s, before).handlers[n - 1] == s.handlers[n - 1];
      Extend(p, s, before, e, req.sender.value, req.target, Hour(now));
      run := before + [e];
    }
  }

  /** All handlers find that they are not limited, and then all store. */
  lemma AllAtOnce(p: Policy, s: Node, req: Request, now: nat, records: nat) returns (run: seq<Tick>)
    requires (forall k | 0 <= k < |s.handlers| :: s.handlers[k].Idle?) && Ready(p, s, req, Hour(now), records)
    requires records + |s.handlers| <= p.storage.maxMessages
    ensures AllAt(run, |s.handlers|, now)
    ensures Accepted(p, s, run, req.sender.value, req.target, Hour(now)) == |s.handlers|
  {
    var checks := AllCheck(p, s, req, now, |s.handlers|);
    var stores := AllStore(p, After(p, s, checks), req, now, |s.handlers|);
    Concat(p, s, checks, stores, req.sender.value, req.target, Hour(now));
    run := checks + stores;
  }

  /** From a state without a count of this hour, idle handlers store as many deposits as the bound says. */
  lemma FillUp(p: Policy, s: Node, i: nat, req: Request, now: nat, records: nat) returns (run: seq<Tick>)
    requires i < |s.handlers| && (forall k | 0 <= k < |s.handlers| :: s.handlers[k].Idle?)
    requires Ready(p, s, req, Hour(now), records) && CountIn(s.limits, req.sender.value, req.target, Hour(now)) == 0
    requires records + Bound(p, |s.handlers|) <= p.storage.maxMessages
    ensures AllAt(run, |s.handlers|, now)
    ensures Accepted(p, s, run, req.sender.value, req.target, Hour(now)) == Bound(p, |s.handlers|)
  {
    var n := if p.depositRateLimit == 0 then 0 else p.depositRateLimit - 1;
    var first := OneByOne(p, s, i, req, now, records, n);
    var last := AllAtOnce(p, After(p, s, first), req, now, records + n);
    Concat(p, s, first, last, req.sender.value, req.target, Hour(now));
    run := first + last;
  }

  /** Some schedule of n handlers within one hour stores exactly limit + n - 1 deposits of a pair. */
  lemma BoundReached(p: Policy, handlers: nat, req: Request) returns (run: seq<Tick>)
    requires handlers >= 1 && Fine(p, req) && Bound(p, handlers) <= p.storage.maxMessages
    ensures Schedule(handlers, 0, run) && AllAt(run, handlers, 0)
    ensures Accepted(p, Begin(handlers), run, req.sender.value, req.target, 0) == Bound(p, handlers)
  {
    run := FillUp(p, Begin(handlers), 0, req, 0, 0);
  }

  // ---------------------------------------------------------------- an old reading passes the bound

  const NEXT_HOUR: nat := 3600 * SECOND

  /** Handler 0 has stored a deposit in hour 0 and read the clock, and counts only after handler 1 has used
      up the limit of hour 1: that overwrites the count of hour 1. */
  lemma OldCountErases(p: Policy, s: Node, req: Request, records: nat) returns (run: seq<Tick>)
    requires Fine(p, req) && Ready(p, s, req, 1, records)
    requires |s.handlers| >= 2 && s.handlers[0] == Counting(req.sender.value, req, 0) && s.handlers[1].Idle?
    requires CountIn(s.limits, req.sender.value, req.target, 1) == 0
    requires records + p.depositRateLimit <= p.storage.maxMessages && p.depositRateLimit >= 1
    ensures AllAt(run, |s.handlers|, NEXT_HOUR)
    ensures var s' := After(p, s, run);
            && s'.handlers == s.handlers[0 := Idle] && Ready(p, s', req, 1, records + p.depositRateLimit)
            && CountIn(s'.limits, req.sender.value, req.target, 1) == 0
    ensures Accepted(p, s, run, req.sender.value, req.target, 1) == p.depositRateLimit
  {
    assert Hour(NEXT_HOUR) == 1;
    var first := OneByOne(p, s, 1, req, NEXT_HOUR, records, p.depositRateLimit);
    var e := Tick(0, req, NEXT_HOUR);
    Extend(p, s, first, e, req.sender.value, req.target, 1);
    run := first + [e];
  }

  /** From there all handlers fill the limit of hour 1 up once more. */
  lemma EraseAndFill(p: Policy, s: Node, req: Request, records: nat) returns (run: seq<Tick>)
    requires Fine(p, req) && Ready(p, s, req, 1, records) && p.depositRateLimit >= 1
    requires |s.handlers| >= 2 && s.handlers[0] == Counting(req.sender.value, req, 0)
    requires forall k | 1 <= k < |s.handlers| :: s.handlers[k].Idle?
    requires CountIn(s.limits, req.sender.value, req.target, 1) == 0
    requires records + p.depositRateLimit + Bound(p, |s.handlers|) <= p.storage.maxMessages
    ensures AllAt(run, |s.handlers|, NEXT_HOUR)
    ensures Accepted(p, s, run, req.sender.value, req.target, 1) == p.depositRateLimit + Bound(p, |s.handlers|)
  {
    assert Hour(NEXT_HOUR) == 1;
    var erase := OldCountErases(p, s, req, records);
    var fill := FillUp(p, After(p, s, erase), 1, req, NEXT_HOUR, records + p.depositRateLimit);
    Concat(p, s, erase, fill, req.sender.value, req.target, 1);
    run := erase + fill;
  }

  /** With two handlers or more, a count with an old reading lets an hour store the limit once more. */
  lemma OldReadingOvershoots(p: Policy, handlers: nat, req: Request) returns (run: seq<Tick>)
    requires handlers >= 2 && Fine(p, req) && p.depositRateLimit >= 1
    requires 1 + p.depositRateLimit + Bound(p, handlers) <= p.storage.maxMessages
    ensures Schedule(handlers, 0, run)
    ensures Accepted(p, Begin(handlers), run, req.sender.value, req.target, 1)
            == p.depositRateLimit + Bound(p, handlers)
  {
    var early, s1 := StoreAndRead(p, handlers, req);
    var late := EraseAndFill(p, s1, req, 1);
    Concat(p, Begin(handlers), early, late, req.sender.value, req.target, 1);
    run := early + late;
  }

  lemma StoreAndRead(p: Policy, handlers: nat, req: Request) returns (run: seq<Tick>, s': Node)
    requires handlers >= 2 && Fine(p, req) && 1 <= p.storage.maxMessages
    ensures AllAt(run, handlers, 0) && s' == After(p, Begin(handlers), run)
    ensures s'.handlers == Begin(handlers).handlers[0 := Counting(req.sender.value, req, 0)]
    ensures s'.limits == map[] && MetaOf(s'.store, req.target).count == 1
    ensures Accepted(p, Begin(handlers), run, req.sender.value, req.target, 1) == 0
  {
    var s, sender, t := Begin(handlers), req.sender.value, req.target;
    var stores := StoreOne(p, s, 0, req, 0, 0);
    var e := Tick(0, req, 0);
    Extend(p, s, stores, e, sender, t, 1);
    run := stores + [e];
    s' := After(p, s, run);
    OtherHour(p, s, run, sender, t, 1);
  }

  lemma {:induction false} OtherHour(p: Policy, s: Node, run: seq<Tick>, sender: Sender, t: Target, hour: nat)
    requires Schedule(|s.handlers|, 0, run) && forall k | 0 <= k < |run| :: Hour(run[k].now) != hour
    ensures Accepted(p, s, run, sender, t, hour) == 0
    decreases |run|
  {
    if run != [] {
      OtherHour(p, Step(p, s, run[0]), run[1..], sender, t, hour);
    }
  }

  // ---------------------------------------------------------------- one handler is the method

  /** One handler without interference: its steps are the deposit of `HandleDepositRequest`. */
  lemma AloneIsHandled(p: Policy, s: Node, req: Request, checked: nat, stored: nat, counted: nat)
    requires s.handlers == [Idle]
    ensures var ask, store, count := Tick(0, req, checked), Tick(0, req, stored), Tick(0, req, counted);
            var asked := Step(p, Step(p, s, ask), ask);
            match Admit(p, s.limits, req, checked)
            case Failure(_) => if Checked(p, req).Failure? then Step(p, s, ask) == s else asked == s
            case Success(sender) =>
              match Saved(p, s.store, sender, req, stored)
              case Failure(_) => Step(p, asked, store) == s
              case Success(store') =>
                Step(p, Step(p, Step(p, asked, store), count), count)
                == Node(store', Incremented(s.limits, sender, req.target, Hour(counted)), [Idle])
  {
    var ask, store, count := Tick(0, req, checked), Tick(0, req, stored), Tick(0, req, counted);
    var asked := Step(p, Step(p, s, ask), ask);
    var admitted := Admit(p, s.limits, req, checked);
    if admitted.Success? {
      assert asked == s.(handlers := [Passed(admitted.value, req)]);
      var s3 := Step(p, asked, store);
      if Saved(p, s.store, admitted.value, req, stored).Success? {
        assert s3.handlers == [Written(admitted.value, req)];
        var s4 := Step(p, s3, count);
        assert s4.handlers == [Counting(admitted.value, req, Hour(counted))];
        assert Step(p, s4, count).handlers == [Idle];
      } else {
        assert s3.handlers == [Idle];
      }
    } else if Checked(p, req).Success? {
      assert asked.handlers == [Idle];
    }
  }

  /** One handler without interference stores the deposit exactly if its envelope is not too large, it is
      signed and the signature fits, its sender can be read, this hour's entry of the pair, if there is one,
      is below the limit, and the target, if it has metadata, has not reached its count; and then the
      sender's entry counts one more. */
  lemma StoresExactly(p: Policy, s: Node, req: Request, checked: nat, stored: nat, counted: nat)
    requires s.handlers == [Idle]
    ensures var ask, store, count := Tick(0, req, checked), Tick(0, req, stored), Tick(0, req, counted);
            var s3 := Step(p, Step(p, Step(p, s, ask), ask), store);
            (s3.handlers[0].Written? <==>
               && |req.envelope| <= p.storage.maxMessageSize && req.genuine && req.sender.Some?
               && (HasEntry(s.limits, req, checked) ==>
                     s.limits[req.sender.value][req.target].count < p.depositRateLimit)
               && (req.target in s.store.metas ==> s.store.metas[req.target].count < p.storage.maxMessages))
    ensures var ask, store, count := Tick(0, req, checked), Tick(0, req, stored), Tick(0, req, counted);
            var s3 := Step(p, Step(p, Step(p, s, ask), ask), store);
            var s5 := Step(p, Step(p, s3, count), count);
            s3.handlers[0].Written? ==>
              && s5.handlers == [Idle] && HasEntry(s5.limits, req, counted)
              && s5.limits[req.sender.value][req.target].count
                 == 1 + if HasEntry(s.limits, req, counted) then s.limits[req.sender.value][req.target].count else 0
  {
    var ask, store, count := Tick(0, req, checked), Tick(0, req, stored), Tick(0, req, counted);
    var s1 := Step(p, s, ask);
    assert s1 == s || s1.handlers == [Asking(req.sender.value, req, Hour(checked))];
    var s2 := Step(p, s1, ask);
    assert s1 == s || s2.handlers == [Idle] || s2.handlers == [Passed(req.sender.value, req)];
    var s3 := Step(p, s2, store);
    assert s3.handlers == [Idle] || s3.handlers[0].Asking? || s3.handlers == [Written(req.sender.value, req)];
    if s3.handlers[0].Written? {
      var s4 := Step(p, s3, count);
      assert s4.handlers == [Counting(req.sender.value, req, Hour(counted))];
    }
  }

  /** The pair of the request has an entry of the hour of that time. */
  predicate HasEntry(limits: Limits, req: Request, now: nat) {
    && req.sender.Some? && req.sender.value in limits && req.target in limits[req.sender.value]
    && limits[req.sender.value][req.target].hourBucket * 3600 * SECOND <= now
       < (limits[req.sender.value][req.target].hourBucket + 1) * 3600 * SECOND
  }

  // ---------------------------------------------------------------- where the records come from

  /** A tick of the run brought this request, which is genuine and of that sender. */
  ghost predicate Brought(p: Policy, run: seq<Tick>, req: Request, sender: Sender) {
    && (exists k :: 0 <= k < |run| && run[k].req == req)
    && req.genuine && req.sender == Some(sender) && |req.envelope| <= p.storage.maxMessageSize
  }

  /** The record holds what a genuine request of the run brought, and is kept from a tick of the run on for
      the time of the policy. */
  ghost predicate FromRequest(p: Policy, run: seq<Tick>, t: Target, m: Stored) {
    exists req: Request, k: nat ::
      && Brought(p, run, req, m.sender) && req.target == t && req.id == m.id && req.envelope == m.envelope
      && k < |run| && m.expiresAt == (run[k].now + p.ttl * SECOND) / SECOND
  }

  ghost predicate Sourced(p: Policy, s: Node, run: seq<Tick>) {
    && (forall i | 0 <= i < |s.handlers| && !s.handlers[i].Idle? ::
          Brought(p, run, s.handlers[i].req, s.handlers[i].sender))
    && (forall t, id | t in s.store.boxes && id in s.store.boxes[t] :: FromRequest(p, run, t, s.store.boxes[t][id]))
  }

  lemma BroughtLater(p: Policy, run: seq<Tick>, e: Tick, req: Request, sender: Sender)
    requires Brought(p, run, req, sender)
    ensures Brought(p, run + [e], req, sender)
  {
    var k :| 0 <= k < |run| && run[k].req == req;
    assert (run + [e])[k].req == req;
  }

  lemma FromRequestLater(p: Policy, run: seq<Tick>, e: Tick, t: Target, m: Stored)
    requires FromRequest(p, run, t, m)
    ensures FromRequest(p, run + [e], t, m)
  {
    var req, k: nat :| && Brought(p, run, req, m.sender) && req.target == t && req.id == m.id
                       && req.envelope == m.envelope
                       && k < |run| && m.expiresAt == (run[k].now + p.ttl * SECOND) / SECOND;
    BroughtLater(p, run, e, req, m.sender);
    assert (run + [e])[k] == run[k];
  }

  lemma StepSourced(p: Policy, s: Node, run: seq<Tick>, e: Tick)
    requires e.i < |s.handlers| && Sourced(p, s, run)
    ensures Sourced(p, Step(p, s, e), run + [e])
  {
    var s' := Step(p, s, e);
    assert (run + [e])[|run|] == e;
    forall i | 0 <= i < |s'.handlers| && !s'.handlers[i].Idle?
      ensures Brought(p, run + [e], s'.handlers[i].req, s'.handlers[i].sender)
    {
      if !s.handlers[i].Idle? {
        BroughtLater(p, run, e, s.handlers[i].req, s.handlers[i].sender);
      }
    }
    forall t, id | t in s'.store.boxes && id in s'.store.boxes[t]
      ensures FromRequest(p, run + [e], t, s'.store.boxes[t][id])
    {
      if t in s.store.boxes && id in s.store.boxes[t] && s'.store.boxes[t][id] == s.store.boxes[t][id] {
        FromRequestLater(p, run, e, t, s.store.boxes[t][id]);
      } else {
        StoredFrom(p, s, run, e, t, id);
      }
    }
  }

  /** The record that a step stores. */
  lemma StoredFrom(p: Policy, s: Node, run: seq<Tick>, e: Tick, t: Target, id: Id)
    requires e.i < |s.handlers| && (s.handlers[e.i].Passed? ==>
               Brought(p, run, s.handlers[e.i].req, s.handlers[e.i].sender))
    requires var s' := Step(p, s, e);
             && t in s'.store.boxes && id in s'.store.boxes[t]
             && !(t in s.store.boxes && id in s.store.boxes[t] && s'.store.boxes[t][id] == s.store.boxes[t][id])
    ensures FromRequest(p, run + [e], t, Step(p, s, e).store.boxes[t][id])
  {
    var h, m := s.handlers[e.i], Step(p, s, e).store.boxes[t][id];
    assert (run + [e])[|run|] == e;
    BroughtLater(p, run, e, h.req, h.sender);
    assert m.expiresAt == ((run + [e])[|run|].now + p.ttl * SECOND) / SECOND;
  }

  lemma {:induction false} RunSourced(p: Policy, s: Node, before: seq<Tick>, run: seq<Tick>)
    requires Schedule(|s.handlers|, 0, run) && Sourced(p, s, before)
    ensures Sourced(p, After(p, s, run), before + run)
    decreases |run|
  {
    if run == [] {
      assert before + run == before;
    } else {
      StepSourced(p, s, before, run[0]);
      RunSourced(p, Step(p, s, run[0]), before + [run[0]], run[1..]);
      assert before + run == before + [run[0]] + run[1..];
    }
  }

  /** However the handlers interleave, every record of the node comes from a genuine request of the schedule
      for its target, carries that request's sender and envelope, and ends the policy's time after a tick. */
  lemma RecordsGenuine(p: Policy, handlers: nat, run: seq<Tick>, t: Target, id: Id)
    requires Schedule(handlers, 0, run) && id in BoxOf(After(p, Begin(handlers), run).store, t)
    ensures var m := BoxOf(After(p, Begin(handlers), run).store, t)[id];
            m.id == id && FromRequest(p, run, t, m)
  {
    RunSourced(p, Begin(handlers), [], run);
    assert [] + run == run;
    NodeFiled(p, handlers, run);
  }

  lemma NodeFiled(p: Policy, handlers: nat, run: seq<Tick>)
    requires Schedule(handlers, 0, run)
    ensures Runs.OwnIds(After(p, Begin(handlers), run).store)
  {
    var ops := DepositsAreStores(p, Begin(handlers), run);
    Runs.RecordsFiled(p.storage, EMPTY, ops);
  }

  // ---------------------------------------------------------------- the store of the node

  /** Every run of the handlers acts on the store as a run of validated stores. */
  lemma {:induction false} DepositsAreStores(p: Policy, s: Node, run: seq<Tick>) returns (ops: seq<Runs.Timed>)
    requires Schedule(|s.handlers|, 0, run)
    requires forall k | 0 <= k < |s.handlers| && !s.handlers[k].Idle? ::
               |s.handlers[k].req.envelope| <= p.storage.maxMessageSize
    ensures Runs.Validated(p.storage, ops)
    ensures After(p, s, run).store == Runs.After(p.storage, s.store, ops)
    decreases |run|
  {
    if run == [] {
      ops := [];
    } else {
      var s' := Step(p, s, run[0]);
      ops := DepositsAreStores(p, s', run[1..]);
      var h := s.handlers[run[0].i];
      if h.Passed? {
        var op := Runs.Timed(Runs.Put(h.req.target, h.req.id, h.sender, h.req.envelope, p.ttl), run[0].now);
        assert Runs.Apply(p.storage, s.store, op) == s'.store;
        assert ([op] + ops)[1..] == ops;
        ops := [op] + ops;
      }
    }
  }

  /** However the handlers interleave, a target's records stay within its limits. */
  lemma DepositsKeepQuota(p: Policy, handlers: nat, run: seq<Tick>, t: Target)
    requires Schedule(handlers, 0, run) && p.storage.maxMessages >= 1
    ensures var box := BoxOf(After(p, Begin(handlers), run).store, t);
            |box| <= p.storage.maxMessages
            && Runs.BytesIn(box) <= p.storage.maxMessages * p.storage.maxMessageSize
  {
    var ops := DepositsAreStores(p, Begin(handlers), run);
    Runs.QuotaHolds(p.storage, ops, t);
  }
}
