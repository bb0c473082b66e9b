/** Deposits at a mailbox node: one handler checks the hourly rate limit, stores, and counts. */
module MailboxDeposit {
  import opened Wrappers
  import opened MailboxStorage

  type Sender = Bytes

  datatype Entry = Entry(count: nat, hourBucket: nat)

  type Limits = map<Sender, map<Target, Entry>>

  datatype Policy = Policy(storage: Config, depositRateLimit: nat, ttl: nat)

  /** `genuine` says that the request is signed, that its envelope parses and that the signature fits;
      `sender` is what the envelope says about its sender. */
  datatype Request = Request(target: Target, id: Id, envelope: Bytes, genuine: bool, sender: Option<Sender>)

  datatype Refusal = TooLarge | NotGenuine | NoSender | RateLimited | StorageError

  function Hour(now: nat): nat {
    now / SECOND / 3600
  }

  // ---------------------------------------------------------------- the three steps

  /** What the counter of the pair says in an hour. */
  function CountIn(limits: Limits, s: Sender, t: Target, hour: nat): nat {
    if s in limits && t in limits[s] && limits[s][t].hourBucket == hour then limits[s][t].count else 0
  }

  /** Without an entry of this hour nobody is limited, whatever the limit. */
  predicate IsLimited(p: Policy, limits: Limits, s: Sender, t: Target, hour: nat) {
    && s in limits && t in limits[s] && limits[s][t].hourBucket == hour
    && limits[s][t].count >= p.depositRateLimit
  }

  function Incremented(limits: Limits, s: Sender, t: Target, hour: nat): Limits {
    var targets: map<Target, Entry> := if s in limits then limits[s] else map[];
    limits[s := targets[t := Entry(CountIn(limits, s, t, hour) + 1, hour)]]
  }

  /** The checks of a request that need no clock. */
  function Checked(p: Policy, req: Request): Result<Sender, Refusal> {
    if |req.envelope| > p.storage.maxMessageSize then Failure(TooLarge)
    else if !req.genuine then Failure(NotGenuine)
    else if req.sender.None? then Failure(NoSender)
    else Success(req.sender.value)
  }

  function Admit(p: Policy, limits: Limits, req: Request, now: nat): Result<Sender, Refusal> {
    var checked := Checked(p, req);
    if checked.Success? && IsLimited(p, limits, checked.value, req.target, Hour(now))
    then Failure(RateLimited) else checked
  }

  ghost function Saved(p: Policy, store: Store, s: Sender, req: Request, now: nat): Result<Store, Error> {
    StoreMessage(p.storage, store, req.target, Record(req.id, s, req.envelope, p.ttl, now), now)
  }

  // ---------------------------------------------------------------- the handler object

  class DepositHandler {
    const policy: Policy
    const storage: Storage
    var rateLimit: Limits

    constructor (policy: Policy, storage: Storage)
      ensures this.policy == policy && this.storage == storage && rateLimit == map[]
    {
      this.policy, this.storage, rateLimit := policy, storage, map[];
    }

    method IsRateLimited(s: Sender, t: Target, now: nat) returns (limited: bool)
      ensures limited <==> IsLimited(policy, rateLimit, s, t, Hour(now))
    {
      var hourBucket := now / SECOND / 3600;
      if s in rateLimit {
        var senderMap := rateLimit[s];
        if t in senderMap {
          if senderMap[t].hourBucket == hourBucket {
            return senderMap[t].count >= policy.depositRateLimit;
          }
        }
      }
      return false;
    }

    method IncrementRateLimit(s: Sender, t: Target, now: nat)
      modifies this
      ensures rateLimit == Incremented(old(rateLimit), s, t, Hour(now))
    {
      var hourBucket := now / SECOND / 3600;
      if s !in rateLimit {
        rateLimit := rateLimit[s := map[]];
      }
      var entry := Entry(1, hourBucket);
      if t in rateLimit[s] && rateLimit[s][t].hourBucket == hourBucket {
        entry := Entry(rateLimit[s][t].count + 1, hourBucket);
      }
      rateLimit := rateLimit[s := rateLimit[s][t := entry]];
    }

    /** A deposit that no other handler interferes with, with the clock readings of its steps: until
        when the message is kept, which may be later than the record says. */
    method HandleDepositRequest(req: Request, checked: nat, stored: nat, counted: nat, answered: nat)
      returns (r: Result<nat, Refusal>)
      requires storage.config == policy.storage
      modifies this, storage
      ensures match Admit(policy, old(rateLimit), req, checked)
              case Failure(e) => r == Failure(e) && rateLimit == old(rateLimit) && storage.View() == old(storage.View())
              case Success(s) =>
                match Saved(policy, old(storage.View()), s, req, stored)
                case Failure(_) =>
                  r == Failure(StorageError) && rateLimit == old(rateLimit) && storage.View() == old(storage.View())
                case Success(store) =>
                  && r == Success((answered + policy.ttl * SECOND) / SECOND)
                  && rateLimit == Incremented(old(rateLimit), s, req.target, Hour(counted))
                  && storage.View() == store
      ensures r.Success? <==>
              && |req.envelope| <= policy.storage.maxMessageSize && req.genuine && req.sender.Some?
              && (var s := req.sender.value;
                  s in old(rateLimit) && req.target in old(rateLimit)[s]
                  && old(rateLimit)[s][req.target].hourBucket == checked / SECOND / 3600 ==>
                    old(rateLimit)[s][req.target].count < policy.depositRateLimit)
              && (req.target in old(storage.metas) ==>
                    old(storage.metas)[req.target].count < policy.storage.maxMessages)
      ensures r.Failure? ==> rateLimit == old(rateLimit) && storage.View() == old(storage.View())
      ensures r.Success? ==>
              && r.value * SECOND <= answered + policy.ttl * SECOND < (r.value + 1) * SECOND
              && req.id in BoxOf(storage.View(), req.target)
              && (stored <= answered ==> BoxOf(storage.View(), req.target)[req.id].expiresAt <= r.value)
    {
      if |req.envelope| > policy.storage.maxMessageSize {
        return Failure(TooLarge);
      }
      if !req.genuine {
        return Failure(NotGenuine);
      }
      if req.sender.None? {
        return Failure(NoSender);
      }
      var s := req.sender.value;
      var limited := IsRateLimited(s, req.target, checked);
      if limited {
        return Failure(RateLimited);
      }
      var put := storage.Put(req.target, req.id, s, req.envelope, policy.ttl, stored);
      if put.Failure? {
        return Failure(StorageError);
      }
      IncrementRateLimit(s, req.target, counted);
      SecondsMonotone(stored + policy.ttl * SECOND, answered + policy.ttl * SECOND);
      return Success((answered + policy.ttl * SECOND) / SECOND);
    }
  }

  lemma SecondsMonotone(a: nat, b: nat)
    ensures b / SECOND * SECOND <= b < (b / SECOND + 1) * SECOND
    ensures a <= b ==> a / SECOND <= b / SECOND
  {
  }
}
