/** The bounded address book: a new contact over the limit evicts a least recently seen one. */
module AddrBook {
  import opened Wrappers

  const MAX_PEERS: nat := 1000

  type PublicKey = Bytes

  datatype PeerRecord = PeerRecord(publicKey: PublicKey, peerId: Bytes, addresses: seq<Bytes>, lastSeen: int,
                                   connected: bool)

  type Peers = map<PublicKey, PeerRecord>

  datatype Error = PeerNotFound

  // ---------------------------------------------------------------- eviction

  /** An order in which the map may be iterated. */
  ghost predicate IsOrder(order: seq<PublicKey>, keys: set<PublicKey>) {
    && (forall k :: k in order <==> k in keys)
    && forall i, j | 0 <= i < j < |order| :: order[i] != order[j]
  }

  /** The key that the scan ends with. The empty key also stands for "none yet". */
  function Scanned(peers: Peers, order: seq<PublicKey>): (oldest: PublicKey)
    requires forall k | k in order :: k in peers
    ensures order != [] ==> oldest in order
    decreases |order|
  {
    if order == [] then []
    else
      var n := |order| - 1;
      var oldest := Scanned(peers, order[..n]);
      if oldest == [] || peers[order[n]].lastSeen < peers[oldest].lastSeen then order[n] else oldest
  }

  function Removed(peers: Peers, order: seq<PublicKey>): Peers
    requires forall k | k in order :: k in peers
  {
    var oldest := Scanned(peers, order);
    if oldest == [] then peers else peers - {oldest}
  }

  predicate LeastRecent(peers: Peers, key: PublicKey) {
    key in peers && forall k | k in peers :: peers[key].lastSeen <= peers[k].lastSeen
  }

  /** The record with the empty key is strictly the oldest one. */
  predicate EmptyOldest(peers: Peers) {
    [] in peers && forall k | k in peers && k != [] :: peers[[]].lastSeen < peers[k].lastSeen
  }

  /** What the scan has after a part of the order: the oldest non-empty key since the last time that the
      empty key was strictly the oldest. */
  lemma {:induction false} ScannedPart(peers: Peers, order: seq<PublicKey>)
    requires forall k | k in order :: k in peers
    ensures forall k | 0 <= k < |order| && order[k] != [] :: BeatenBy(peers, order, Scanned(peers, order), order[k])
    ensures [] !in order && order != [] ==> Scanned(peers, order) != []
    decreases |order|
  {
    if order != [] {
      var n := |order| - 1;
      var front, last := order[..n], order[n];
      ScannedPart(peers, front);
      var oldest, before := Scanned(peers, order), Scanned(peers, front);
      forall k | 0 <= k < |order| && order[k] != []
        ensures BeatenBy(peers, order, oldest, order[k])
      {
        if k < n {
          assert front[k] == order[k] && BeatenBy(peers, front, before, order[k]);
        }
      }
    }
  }

  /** The scan prefers `oldest` to `k`, or has lost `k` to the empty key. */
  predicate BeatenBy(peers: Peers, order: seq<PublicKey>, oldest: PublicKey, k: PublicKey)
    requires k in peers && forall x | x in order :: x in peers
  {
    || (oldest != [] && oldest in peers && peers[oldest].lastSeen <= peers[k].lastSeen)
    || ([] in order && peers[[]].lastSeen < peers[k].lastSeen)
  }

  /** Whatever the order, the scan finds a least recently seen record exactly if the one with the empty
      key is not strictly the oldest; if it is, no order finds it. */
  lemma EvictsLeastRecent(peers: Peers, order: seq<PublicKey>)
    requires IsOrder(order, peers.Keys) && peers != map[]
    ensures Scanned(peers, order) != [] && LeastRecent(peers, Scanned(peers, order)) <==> !EmptyOldest(peers)
  {
    ScannedPart(peers, order);
    var k :| k in peers;
    assert k in order;
    forall k | k in peers && k != []
      ensures BeatenBy(peers, order, Scanned(peers, order), k)
    {
      assert k in order;
    }
  }

  /** If the record with the empty key is strictly the oldest and comes last, nothing is removed. */
  lemma EmptyLastKeepsAll(peers: Peers, order: seq<PublicKey>)
    requires IsOrder(order, peers.Keys) && EmptyOldest(peers) && order != [] && order[|order| - 1] == []
    ensures Removed(peers, order) == peers
  {
    var front := order[..|order| - 1];
    assert forall k | k in front :: k != [];
  }

  // ---------------------------------------------------------------- the book

  function Added(peers: Peers, key: PublicKey, peerId: Bytes, addresses: seq<Bytes>, now: int): Peers {
    if key in peers then peers[key := peers[key].(peerId := peerId, addresses := addresses, lastSeen := now)]
    else peers[key := PeerRecord(key, peerId, addresses, now, false)]
  }

  function Touched(peers: Peers, key: PublicKey, addresses: seq<Bytes>, now: int): Peers {
    if key in peers then peers[key := peers[key].(addresses := addresses, lastSeen := now)] else peers
  }

  class AddressBook {
    var peers: Peers

    constructor (loaded: Peers)
      ensures peers == loaded
    {
      peers := loaded;
    }

    /** `order` is the order in which an eviction iterated over the map. */
    method AddContact(key: PublicKey, peerId: Bytes, addresses: seq<Bytes>, now: int)
      returns (ghost order: seq<PublicKey>)
      modifies this
      ensures var added := Added(old(peers), key, peerId, addresses, now);
              if key !in old(peers) && |added| > MAX_PEERS
              then IsOrder(order, added.Keys) && peers == Removed(added, order)
              else peers == added
    {
      order := [];
      if key in peers {
        var existing := peers[key];
        peers := peers[key := existing.(peerId := peerId, addresses := addresses, lastSeen := now)];
      } else {
        peers := peers[key := PeerRecord(key, peerId, addresses, now, false)];
        if |peers| > MAX_PEERS {
          order := RemoveOldestPeer();
        }
      }
    }

    method RemoveOldestPeer() returns (ghost order: seq<PublicKey>)
      modifies this
      ensures IsOrder(order, old(peers).Keys) && peers == Removed(old(peers), order)
    {
      var oldestKey: PublicKey, oldestTime := [], 0;
      ghost var all := peers;
      var rest := peers.Keys;
      ghost var seen: set<PublicKey> := {};
      order := [];
      while rest != {}
        invariant peers == all && IsOrder(order, seen) && forall k :: k in all.Keys <==> k in seen || k in rest
        invariant forall k | k in seen :: k !in rest
        invariant oldestKey == Scanned(all, order)
        invariant oldestKey != [] ==> oldestKey in all && oldestTime == all[oldestKey].lastSeen
        decreases |rest|
      {
        var key :| key in rest;
        LongerScan(all, order, seen, key);
        if oldestKey == [] || peers[key].lastSeen < oldestTime {
          oldestKey := key;
          oldestTime := peers[key].lastSeen;
        }
        rest, seen, order := rest - {key}, seen + {key}, order + [key];
      }
      assert seen == all.Keys;
      if oldestKey != [] {
        peers := peers - {oldestKey};
      }
    }

    method UpdateAddresses(key: PublicKey, addresses: seq<Bytes>, now: int) returns (r: Result<(), Error>)
      modifies this
      ensures r.Success? <==> key in old(peers)
      ensures peers == Touched(old(peers), key, addresses, now)
    {
      if key !in peers {
        return Failure(PeerNotFound);
      }
      peers := peers[key := peers[key].(addresses := addresses, lastSeen := now)];
      return Success(());
    }
  }

  lemma LongerScan(peers: Peers, order: seq<PublicKey>, keys: set<PublicKey>, key: PublicKey)
    requires IsOrder(order, keys) && keys <= peers.Keys && key in peers && key !in keys
    ensures IsOrder(order + [key], keys + {key})
    ensures var oldest := Scanned(peers, order);
            Scanned(peers, order + [key])
            == if oldest == [] || peers[key].lastSeen < peers[oldest].lastSeen then key else oldest
  {
    assert (order + [key])[..|order|] == order;
  }

  // ---------------------------------------------------------------- whole runs

  datatype Op =
    | Add(key: PublicKey, peerId: Bytes, addresses: seq<Bytes>, order: seq<PublicKey>)
    | Update(key: PublicKey, addresses: seq<Bytes>)

  datatype Timed = Timed(op: Op, now: int)

  /** When a peer was last added or updated, and with what; and what its first addition, or the loaded file,
      said besides. */
  datatype Last = Last(time: int, peerId: Bytes, addresses: seq<Bytes>, publicKey: PublicKey, connected: bool)

  /** The book; what the events of the run, and the loaded file, last said of each peer; and the peers that
      were evicted and not added again. */
  datatype Log = Log(peers: Peers, last: map<PublicKey, Last>, gone: set<PublicKey>)

  function Begin(loaded: Peers): Log {
    Log(loaded,
        map k | k in loaded ::
          Last(loaded[k].lastSeen, loaded[k].peerId, loaded[k].addresses, loaded[k].publicKey, loaded[k].connected),
        {})
  }

  predicate Evicts(peers: Peers, op: Op, now: int) {
    op.Add? && op.key !in peers && |Added(peers, op.key, op.peerId, op.addresses, now)| > MAX_PEERS
  }

  /** An eviction iterates over the map in some order, and the empty key is not strictly the oldest. */
  ghost predicate Enabled(peers: Peers, op: Op, now: int) {
    Evicts(peers, op, now) ==>
      var added := Added(peers, op.key, op.peerId, op.addresses, now);
      IsOrder(op.order, added.Keys) && !EmptyOldest(added)
  }

  /** An addition of a peer that is not there starts a new record. */
  function Said(log: Log, key: PublicKey, peerId: Bytes, addresses: seq<Bytes>, now: int): map<PublicKey, Last> {
    if key in log.peers && key in log.last
    then log.last[key := log.last[key].(time := now, peerId := peerId, addresses := addresses)]
    else log.last[key := Last(now, peerId, addresses, key, false)]
  }

  ghost function Step(log: Log, op: Op, now: int): Log
    requires Enabled(log.peers, op, now)
  {
    match op
    case Update(key, addresses) =>
      var last := if key in log.peers && key in log.last
                  then log.last[key := log.last[key].(time := now, addresses := addresses)] else log.last;
      Log(Touched(log.peers, key, addresses, now), last, log.gone)
    case Add(key, peerId, addresses, order) =>
      var added := Added(log.peers, key, peerId, addresses, now);
      var peers := if Evicts(log.peers, op, now) then Removed(added, order) else added;
      Log(peers, Said(log, key, peerId, addresses, now), log.gone - {key} + (added.Keys - peers.Keys))
  }

  ghost predicate ValidRun(log: Log, start: int, run: seq<Timed>)
    decreases |run|
  {
    run != [] ==>
      && start <= run[0].now && Enabled(log.peers, run[0].op, run[0].now)
      && ValidRun(Step(log, run[0].op, run[0].now), run[0].now, run[1..])
  }

  ghost function After(log: Log, start: int, run: seq<Timed>): Log
    requires ValidRun(log, start, run)
    decreases |run|
  {
    if run == [] then log else After(Step(log, run[0].op, run[0].now), run[0].now, run[1..])
  }

  /** The records say what the run says, and the run has said something of exactly the peers that are there
      or gone. */
  ghost predicate Told(peers: Peers, last: map<PublicKey, Last>, gone: set<PublicKey>) {
    && (forall k | k in peers ::
          k in last && peers[k].lastSeen == last[k].time && peers[k].peerId == last[k].peerId
          && peers[k].addresses == last[k].addresses && peers[k].publicKey == last[k].publicKey
          && peers[k].connected == last[k].connected)
    && (forall k :: k in last <==> k in peers || k in gone)
    && (forall g | g in gone :: g !in peers)
  }

  /** Nothing was said after `now`, and the peers that are gone were heard of no later than those that are
      there. */
  ghost predicate NotLater(peers: Peers, last: map<PublicKey, Last>, gone: set<PublicKey>, now: int) {
    && Told(peers, last, gone)
    && (forall k | k in last :: last[k].time <= now)
    && (forall g, k | g in gone && k in peers :: last[g].time <= last[k].time)
  }

  ghost predicate LogOk(log: Log, now: int) {
    && NotLater(log.peers, log.last, log.gone, now)
    && |log.peers| <= MAX_PEERS && (log.gone != {} ==> |log.peers| == MAX_PEERS)
  }

  /** An eviction takes one peer, and none that was heard of later than another one. */
  lemma EvictionNotLater(added: Peers, last: map<PublicKey, Last>, gone: set<PublicKey>, order: seq<PublicKey>,
                         now: int)
    requires IsOrder(order, added.Keys) && !EmptyOldest(added) && added != map[]
    requires NotLater(added, last, gone, now)
    ensures var peers := Removed(added, order);
            && |peers| == |added| - 1
            && NotLater(peers, last, gone + (added.Keys - peers.Keys), now)
            && gone + (added.Keys - peers.Keys) != {}
  {
    EvictsLeastRecent(added, order);
    var evicted := Scanned(added, order);
    assert Removed(added, order) == added - {evicted};
    assert (added - {evicted}).Keys == added.Keys - {evicted};
    assert |(added - {evicted}).Keys| == |added - {evicted}| && |added.Keys| == |added|;
    assert added.Keys - (added - {evicted}).Keys == {evicted};
  }

  lemma AddedNotLater(log: Log, op: Op, now: int)
    requires NotLater(log.peers, log.last, log.gone, now) && op.Add?
    ensures NotLater(Added(log.peers, op.key, op.peerId, op.addresses, now),
                     Said(log, op.key, op.peerId, op.addresses, now), log.gone - {op.key}, now)
  {
  }

  lemma AddLogOk(log: Log, op: Op, now: int)
    requires LogOk(log, now) && Enabled(log.peers, op, now) && op.Add?
    ensures LogOk(Step(log, op, now), now)
  {
    var added, last := Added(log.peers, op.key, op.peerId, op.addresses, now),
                       Said(log, op.key, op.peerId, op.addresses, now);
    assert added == log.peers[op.key := added[op.key]];
    AddedSize(log.peers, op.key, added[op.key]);
    AddedNotLater(log, op, now);
    if Evicts(log.peers, op, now) {
      EvictionNotLater(added, last, log.gone - {op.key}, op.order, now);
    } else {
      assert log.gone - {op.key} + (added.Keys - added.Keys) == log.gone - {op.key};
    }
  }

  lemma UpdateLogOk(log: Log, op: Op, now: int)
    requires LogOk(log, now) && op.Update?
    ensures LogOk(Step(log, op, now), now)
  {
    if op.key in log.peers {
      AddedSize(log.peers, op.key, log.peers[op.key].(addresses := op.addresses, lastSeen := now));
    }
  }

  lemma AddedSize(peers: Peers, key: PublicKey, r: PeerRecord)
    ensures |peers[key := r]| == |peers| + if key in peers then 0 else 1
  {
    assert peers[key := r].Keys == peers.Keys + {key};
    assert |peers[key := r].Keys| == |peers[key := r]| && |peers.Keys| == |peers|;
  }

  lemma {:induction false} RunLogOk(log: Log, start: int, run: seq<Timed>) returns (now: int)
    requires LogOk(log, start) && ValidRun(log, start, run)
    ensures LogOk(After(log, start, run), now)
    decreases |run|
  {
    now := start;
    if run != [] {
      assert LogOk(log, run[0].now);
      if run[0].op.Add? {
        AddLogOk(log, run[0].op, run[0].now);
      } else {
        UpdateLogOk(log, run[0].op, run[0].now);
      }
      now := RunLogOk(Step(log, run[0].op, run[0].now), run[0].now, run[1..]);
    }
  }

  /** From any book within the limit, with a clock that does not fall: the records say when, under which peer
      and with which addresses each peer was last added or updated in the run; the book stays within the
      limit, and loses a peer only when it is full; and every peer that was evicted and not added again was
      last added or updated no later than all that are there. */
  lemma KeepsMostRecent(loaded: Peers, start: int, run: seq<Timed>)
    requires |loaded| <= MAX_PEERS && (forall k | k in loaded :: loaded[k].lastSeen <= start)
    requires ValidRun(Begin(loaded), start, run)
    ensures var log := After(Begin(loaded), start, run);
            && Told(log.peers, log.last, log.gone)
            && |log.peers| <= 1000 && (log.gone != {} ==> |log.peers| == 1000)
            && forall g, k | g in log.gone && k in log.peers :: log.last[g].time <= log.last[k].time
  {
    var now := RunLogOk(Begin(loaded), start, run);
  }
}
