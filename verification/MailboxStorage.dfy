/** The message store of a mailbox node. Times are in nanoseconds, except the stored ones, which are
    in seconds. A message identifier is its rank in the key order of the database. */
module MailboxStorage {
  import opened Wrappers

  const SECOND: nat := 1_000_000_000

  type Target = Bytes

  type Id = nat

  datatype Config = Config(maxMessages: nat, maxMessageSize: nat, maxTotalBytes: nat)

  datatype Stored = Stored(id: Id, sender: Bytes, envelope: Bytes, storedAt: nat, expiresAt: nat, size: nat)

  datatype Meta = Meta(count: nat, bytes: nat, oldest: nat, newest: nat)

  datatype Error = CountLimitReached

  type Box = map<Id, Stored>

  /** The records and the metadata, by target. */
  datatype Store = Store(boxes: map<Target, Box>, metas: map<Target, Meta>)

  const EMPTY := Store(map[], map[])

  function BoxOf(s: Store, t: Target): Box {
    if t in s.boxes then s.boxes[t] else map[]
  }

  function MetaOf(s: Store, t: Target): Meta {
    if t in s.metas then s.metas[t] else Meta(0, 0, 0, 0)
  }

  predicate Expired(m: Stored, now: nat) {
    m.expiresAt * SECOND < now
  }

  // ---------------------------------------------------------------- key order

  ghost predicate IsLeast(keys: set<Id>, k: Id) {
    k in keys && forall j | j in keys :: k <= j
  }

  lemma LeastExists(keys: set<Id>)
    requires keys != {}
    ensures exists k :: IsLeast(keys, k)
  {
    var k :| k in keys;
    var rest := keys - {k};
    assert forall j | j in keys :: j == k || j in rest;
    if rest == {} {
      assert IsLeast(keys, k);
    } else {
      LeastExists(rest);
      var j :| IsLeast(rest, j);
      assert IsLeast(keys, if j < k then j else k);
    }
  }

  ghost function Least(keys: set<Id>): (k: Id)
    requires keys != {}
    ensures IsLeast(keys, k)
  {
    LeastExists(keys);
    var k :| IsLeast(keys, k);
    k
  }

  // ---------------------------------------------------------------- operations

  predicate AtCount(c: Config, s: Store, t: Target) {
    t in s.metas && s.metas[t].count >= c.maxMessages
  }

  /** The guard of the eviction in `checkQuota`. */
  predicate Evicts(c: Config, s: Store, t: Target) {
    t in s.metas && s.metas[t].bytes + c.maxMessageSize > c.maxTotalBytes
  }

  /** Eviction deletes the record with the lowest key and leaves the metadata. */
  ghost function Evicted(s: Store, t: Target): Store {
    var box := BoxOf(s, t);
    if box == map[] then s else s.(boxes := s.boxes[t := box - {Least(box.Keys)}])
  }

  /** The metadata after a store at time `now`. */
  function Counted(m: Meta, size: nat, now: nat): Meta {
    var seconds := now / SECOND;
    Meta(m.count + 1, m.bytes + size,
         if m.oldest == 0 || seconds < m.oldest then seconds else m.oldest, seconds)
  }

  function Record(id: Id, sender: Bytes, envelope: Bytes, ttl: nat, now: nat): Stored {
    Stored(id, sender, envelope, now / SECOND, (now + ttl * SECOND) / SECOND, |envelope|)
  }

  function Inserted(s: Store, t: Target, m: Stored, now: nat): Store {
    Store(s.boxes[t := BoxOf(s, t)[m.id := m]], s.metas[t := Counted(MetaOf(s, t), m.size, now)])
  }

  ghost function StoreMessage(c: Config, s: Store, t: Target, m: Stored, now: nat): Result<Store, Error> {
    if AtCount(c, s, t) then Failure(CountLimitReached)
    else Success(Inserted(if Evicts(c, s, t) then Evicted(s, t) else s, t, m, now))
  }

  function IdSet(ids: seq<Id>): set<Id> {
    set id | id in ids
  }

  function DeleteMessages(s: Store, t: Target, ids: set<Id>): Store {
    if t in s.boxes then s.(boxes := s.boxes[t := s.boxes[t] - ids]) else s
  }

  function Live(box: Box, now: nat): Box {
    map k | k in box && !Expired(box[k], now) :: box[k]
  }

  function CleanupExpired(s: Store, now: nat): Store {
    s.(boxes := map t | t in s.boxes :: Live(s.boxes[t], now))
  }

  /** The records that are not expired, in key order. */
  ghost function Listing(box: Box, now: nat): seq<Stored>
    decreases |box|
  {
    if box == map[] then []
    else
      var k := Least(box.Keys);
      SmallerBox(box, k);
      (if Expired(box[k], now) then [] else [box[k]]) + Listing(box - {k}, now)
  }

  /** The listing starts with the lowest record, unless that is expired. */
  lemma ListingFirst(box: Box, now: nat)
    requires box.Keys != {}
    ensures var k := Least(box.Keys);
            Listing(box, now)
            == if Expired(box[k], now) then Listing(box - {k}, now) else [box[k]] + Listing(box - {k}, now)
  {
  }

  lemma SmallerBox(box: Box, k: Id)
    requires k in box
    ensures |box - {k}| == |box| - 1
  {
    assert (box - {k}).Keys == box.Keys - {k};
    assert |(box - {k}).Keys| == |box - {k}| && |box.Keys| == |box|;
  }

  // ---------------------------------------------------------------- the storage object

  class Storage {
    const config: Config
    var boxes: map<Target, Box>
    var metas: map<Target, Meta>

    ghost function View(): Store
      reads this
    {
      Store(boxes, metas)
    }

    constructor (config: Config)
      ensures this.config == config && View() == EMPTY
    {
      this.config := config;
      boxes, metas := map[], map[];
    }

    method Put(t: Target, id: Id, sender: Bytes, envelope: Bytes, ttl: nat, now: nat) returns (r: Result<(), Error>)
      modifies this
      ensures match StoreMessage(config, old(View()), t, Record(id, sender, envelope, ttl, now), now)
              case Success(s) => View() == s && r == Success(())
              case Failure(e) => View() == old(View()) && r == Failure(e)
    {
      var ok := CheckQuota(t);
      if !ok {
        return Failure(CountLimitReached);
      }
      var stored := Stored(id, sender, envelope, now / SECOND, (now + ttl * SECOND) / SECOND, |envelope|);
      boxes := boxes[t := (if t in boxes then boxes[t] else map[])[id := stored]];
      UpdateMetadata(t, |envelope|, now);
      return Success(());
    }

    method CheckQuota(t: Target) returns (ok: bool)
      modifies `boxes
      ensures ok <==> !AtCount(config, old(View()), t)
      ensures View() == if ok && Evicts(config, old(View()), t) then Evicted(old(View()), t) else old(View())
    {
      if t in metas && metas[t].count >= config.maxMessages {
        return false;
      }
      if t in metas && metas[t].bytes + config.maxMessageSize > config.maxTotalBytes {
        EvictOldest(t);
      }
      return true;
    }

    /** Seeks to the first key of the target and deletes it. */
    method EvictOldest(t: Target)
      modifies `boxes
      ensures View() == Evicted(old(View()), t)
    {
      if t in boxes && boxes[t] != map[] {
        var k := Seek(boxes[t].Keys);
        boxes := boxes[t := boxes[t] - {k}];
      }
    }

    method UpdateMetadata(t: Target, size: nat, now: nat)
      modifies `metas
      ensures metas == old(metas)[t := Counted(MetaOf(old(View()), t), size, now)]
    {
      var count, bytes, oldest := 0, 0, 0;
      if t in metas {
        count, bytes, oldest := metas[t].count, metas[t].bytes, metas[t].oldest;
      }
      count := count + 1;
      bytes := bytes + size;
      var seconds := now / SECOND;
      if oldest == 0 || seconds < oldest {
        oldest := seconds;
      }
      metas := metas[t := Meta(count, bytes, oldest, seconds)];
    }

    method ListMessages(t: Target, now: nat) returns (messages: seq<Stored>)
      ensures messages == Listing(BoxOf(View(), t), now)
    {
      messages := [];
      var rest: Box := if t in boxes then boxes[t] else map[];
      while rest != map[]
        invariant messages + Listing(rest, now) == Listing(BoxOf(View(), t), now)
        decreases |rest|
      {
        var k := Seek(rest.Keys);
        SmallerBox(rest, k);
        ListingFirst(rest, now);
        if rest[k].expiresAt * SECOND >= now {
          messages := messages + [rest[k]];
        }
        rest := rest - {k};
      }
    }

    method Delete(t: Target, ids: seq<Id>)
      modifies `boxes
      ensures View() == DeleteMessages(old(View()), t, IdSet(ids))
    {
      if t !in boxes {
        return;
      }
      var n := 0;
      while n < |ids|
        invariant n <= |ids|
        invariant boxes.Keys == old(boxes).Keys && boxes[t] == old(boxes)[t] - IdSet(ids[..n])
        invariant forall u | u in boxes && u != t :: boxes[u] == old(boxes)[u]
      {
        assert IdSet(ids[..n + 1]) == IdSet(ids[..n]) + {ids[n]};
        assert old(boxes)[t] - IdSet(ids[..n + 1]) == boxes[t] - {ids[n]};
        boxes := boxes[t := boxes[t] - {ids[n]}];
        n := n + 1;
      }
      assert ids[..|ids|] == ids;
    }

    method Cleanup(now: nat)
      modifies `boxes
      ensures View() == CleanupExpired(old(View()), now)
    {
      var targets := boxes.Keys;
      while targets != {}
        invariant targets <= boxes.Keys == old(boxes).Keys
        invariant forall t | t in boxes :: boxes[t] == if t in targets then old(boxes)[t] else Live(old(boxes)[t], now)
        decreases |targets|
      {
        var t :| t in targets;
        CleanupBox(t, now);
        targets := targets - {t};
      }
    }

    /** The expired keys of one target are collected and deleted. */
    method CleanupBox(t: Target, now: nat)
      requires t in boxes
      modifies `boxes
      ensures boxes == old(boxes)[t := Live(old(boxes)[t], now)]
    {
      var keysToDelete: set<Id> := {};
      var rest := boxes[t].Keys;
      while rest != {}
        invariant rest <= boxes[t].Keys
        invariant keysToDelete == set k | k in boxes[t] && k !in rest && Expired(boxes[t][k], now)
        decreases |rest|
      {
        var k :| k in rest;
        if boxes[t][k].expiresAt * SECOND < now {
          keysToDelete := keysToDelete + {k};
        }
        rest := rest - {k};
      }
      assert boxes[t] - keysToDelete == Live(boxes[t], now);
      boxes := boxes[t := boxes[t] - keysToDelete];
    }

    /** The first key of an iterator: the lowest one. */
    method Seek(keys: set<Id>) returns (k: Id)
      requires keys != {}
      ensures k == Least(keys)
    {
      k :| k in keys;
      var rest := keys - {k};
      while rest != {}
        invariant k in keys && rest <= keys && forall j | j in keys && j !in rest :: k <= j
        decreases |rest|
      {
        var j :| j in rest;
        if j < k {
          k := j;
        }
        rest := rest - {j};
      }
      assert IsLeast(keys, k);
    }
  }
}
