/** Whole runs of the mailbox store: quotas, and what expiry cleanup changes. */
module MailboxRuns {
  import opened Wrappers
  import opened MailboxStorage

  datatype Op =
    | Put(target: Target, id: Id, sender: Bytes, envelope: Bytes, ttl: nat)
    | Delete(target: Target, ids: seq<Id>)
    | List(target: Target)
    | Cleanup

  /** An operation and the time at which it runs. */
  datatype Timed = Timed(op: Op, now: nat)

  ghost function PutResult(c: Config, s: Store, x: Timed): Result<Store, Error>
    requires x.op.Put?
  {
    StoreMessage(c, s, x.op.target, Record(x.op.id, x.op.sender, x.op.envelope, x.op.ttl, x.now), x.now)
  }

  ghost function Apply(c: Config, s: Store, x: Timed): Store {
    match x.op
    case Put(_, _, _, _, _) => (match PutResult(c, s, x) case Success(s') => s' case Failure(_) => s)
    case Delete(t, ids) => DeleteMessages(s, t, IdSet(ids))
    case List(_) => s
    case Cleanup => CleanupExpired(s, x.now)
  }

  ghost function After(c: Config, s: Store, run: seq<Timed>): Store
    decreases |run|
  {
    if run == [] then s else After(c, Apply(c, s, run[0]), run[1..])
  }

  // ---------------------------------------------------------------- sizes

  /** The bytes stored in a box. */
  ghost function BytesIn(box: Box): nat
    decreases |box|
  {
    if box == map[] then 0
    else
      var k := Least(box.Keys);
      SmallerBox(box, k);
      box[k].size + BytesIn(box - {k})
  }

  lemma {:induction false} BytesWithout(box: Box, k: Id)
    requires k in box
    ensures BytesIn(box) == box[k].size + BytesIn(box - {k})
    decreases |box|
  {
    var l := Least(box.Keys);
    SmallerBox(box, l);
    if l != k {
      SmallerBox(box, k);
      BytesWithout(box - {l}, k);
      BytesWithout(box - {k}, l);
      assert box - {l} - {k} == box - {k} - {l};
    }
  }

  /** Part of the records, unchanged. */
  ghost predicate Part(sub: Box, box: Box) {
    forall k | k in sub :: k in box && sub[k] == box[k]
  }

  lemma {:induction false} PartSmaller(sub: Box, box: Box)
    requires Part(sub, box)
    ensures |sub| <= |box| && BytesIn(sub) <= BytesIn(box)
    decreases |box|
  {
    if k :| k in box {
      SmallerBox(box, k);
      BytesWithout(box, k);
      if k in sub {
        SmallerBox(sub, k);
        BytesWithout(sub, k);
        PartSmaller(sub - {k}, box - {k});
      } else {
        PartSmaller(sub, box - {k});
      }
    } else {
      assert sub == map[];
    }
  }

  lemma InsertSize(box: Box, m: Stored)
    ensures |box[m.id := m]| <= |box| + 1 && BytesIn(box[m.id := m]) <= BytesIn(box) + m.size
  {
    var box' := box[m.id := m];
    SmallerBox(box', m.id);
    BytesWithout(box', m.id);
    PartSmaller(box' - {m.id}, box);
  }

  /** No record is larger than `size`, so the whole box is bounded. */
  lemma {:induction false} BytesBound(box: Box, size: nat)
    requires forall k | k in box :: box[k].size <= size
    ensures BytesIn(box) <= |box| * size
    decreases |box|
  {
    if box != map[] {
      var k := Least(box.Keys);
      SmallerBox(box, k);
      var rest := box - {k};
      BytesBound(rest, size);
      TimesNext(|rest|, |box|, size);
    }
  }

  lemma TimesNext(n: nat, m: nat, size: nat)
    requires m == n + 1
    ensures m * size == n * size + size
  {
  }

  // ---------------------------------------------------------------- quotas

  /** The metadata bounds what is stored, and the count in it never passes the limit. */
  ghost predicate QuotaOk(c: Config, s: Store) {
    forall t: Target ::
      && |BoxOf(s, t)| <= MetaOf(s, t).count <= c.maxMessages
      && BytesIn(BoxOf(s, t)) <= MetaOf(s, t).bytes
  }

  lemma EvictedPart(s: Store, t: Target, u: Target)
    ensures Part(BoxOf(Evicted(s, t), u), BoxOf(s, u)) && MetaOf(Evicted(s, t), u) == MetaOf(s, u)
  {
  }

  lemma PutQuota(c: Config, s: Store, t: Target, m: Stored, now: nat)
    requires c.maxMessages >= 1 && QuotaOk(c, s)
    ensures var r := StoreMessage(c, s, t, m, now);
            r.Success? ==> QuotaOk(c, r.value)
  {
    var r := StoreMessage(c, s, t, m, now);
    if r.Success? {
      var s1 := if Evicts(c, s, t) then Evicted(s, t) else s;
      forall u: Target
        ensures |BoxOf(r.value, u)| <= MetaOf(r.value, u).count <= c.maxMessages
        ensures BytesIn(BoxOf(r.value, u)) <= MetaOf(r.value, u).bytes
      {
        EvictedPart(s, t, u);
        PartSmaller(BoxOf(s1, u), BoxOf(s, u));
        if u == t {
          InsertSize(BoxOf(s1, t), m);
        }
      }
    }
  }

  lemma ShrinkQuota(c: Config, s: Store, s': Store)
    requires QuotaOk(c, s) && s'.metas == s.metas && forall t :: Part(BoxOf(s', t), BoxOf(s, t))
    ensures QuotaOk(c, s')
  {
    forall t: Target
      ensures |BoxOf(s', t)| <= MetaOf(s', t).count <= c.maxMessages
      ensures BytesIn(BoxOf(s', t)) <= MetaOf(s', t).bytes
    {
      PartSmaller(BoxOf(s', t), BoxOf(s, t));
    }
  }

  lemma {:induction false} QuotaKept(c: Config, s: Store, run: seq<Timed>)
    requires c.maxMessages >= 1 && QuotaOk(c, s)
    ensures QuotaOk(c, After(c, s, run))
    decreases |run|
  {
    if run != [] {
      var x := run[0];
      if x.op.Put? {
        PutQuota(c, s, x.op.target, Record(x.op.id, x.op.sender, x.op.envelope, x.op.ttl, x.now), x.now);
      } else {
        ShrinkQuota(c, s, Apply(c, s, x));
      }
      QuotaKept(c, Apply(c, s, x), run[1..]);
    }
  }

  /** Every envelope of the run passed the size check of a deposit. */
  ghost predicate Validated(c: Config, run: seq<Timed>) {
    forall k | 0 <= k < |run| && run[k].op.Put? :: |run[k].op.envelope| <= c.maxMessageSize
  }

  ghost predicate SmallRecords(c: Config, s: Store) {
    forall t, k | t in s.boxes && k in s.boxes[t] :: s.boxes[t][k].size <= c.maxMessageSize
  }

  lemma {:induction false} RecordsSmall(c: Config, s: Store, run: seq<Timed>)
    requires SmallRecords(c, s) && Validated(c, run)
    ensures SmallRecords(c, After(c, s, run))
    decreases |run|
  {
    if run != [] {
      assert SmallRecords(c, Apply(c, s, run[0]));
      RecordsSmall(c, Apply(c, s, run[0]), run[1..]);
    }
  }

  /** Over every run, per target: stored count <= counted <= limit, stored bytes <= counted bytes,
      and, of validated deposits, at most the limit times the largest message. */
  lemma QuotaHolds(c: Config, run: seq<Timed>, t: Target)
    requires c.maxMessages >= 1
    ensures |BoxOf(After(c, EMPTY, run), t)| <= MetaOf(After(c, EMPTY, run), t).count <= c.maxMessages
    ensures BytesIn(BoxOf(After(c, EMPTY, run), t)) <= MetaOf(After(c, EMPTY, run), t).bytes
    ensures Validated(c, run) ==> BytesIn(BoxOf(After(c, EMPTY, run), t)) <= c.maxMessages * c.maxMessageSize
  {
    QuotaKept(c, EMPTY, run);
    var box := BoxOf(After(c, EMPTY, run), t);
    assert |box| <= MetaOf(After(c, EMPTY, run), t).count;
    if Validated(c, run) {
      RecordsSmall(c, EMPTY, run);
      BytesBound(box, c.maxMessageSize);
      MulMonotone(|box|, c.maxMessages, c.maxMessageSize);
    }
  }

  /** How many stores for the target succeed. */
  ghost function Successes(c: Config, s: Store, run: seq<Timed>, t: Target): nat
    decreases |run|
  {
    if run == [] then 0
    else
      (if run[0].op.Put? && run[0].op.target == t && PutResult(c, s, run[0]).Success? then 1 else 0)
      + Successes(c, Apply(c, s, run[0]), run[1..], t)
  }

  lemma {:induction false} CountIsSuccesses(c: Config, s: Store, run: seq<Timed>, t: Target)
    ensures MetaOf(After(c, s, run), t).count == MetaOf(s, t).count + Successes(c, s, run, t)
    decreases |run|
  {
    if run != [] {
      CountIsSuccesses(c, Apply(c, s, run[0]), run[1..], t);
    }
  }

  /** No place is ever freed: over a whole run, with all its deletes, acknowledgments and cleanups, the count
      in the metadata is the number of stores for the target that succeeded, so at most the limit succeed. */
  lemma PlacesNeverFreed(c: Config, run: seq<Timed>, t: Target)
    requires c.maxMessages >= 1
    ensures MetaOf(After(c, EMPTY, run), t).count == Successes(c, EMPTY, run, t) <= c.maxMessages
  {
    CountIsSuccesses(c, EMPTY, run, t);
    QuotaHolds(c, run, t);
  }

  lemma MulMonotone(a: nat, b: nat, n: nat)
    requires a <= b
    ensures a * n <= b * n
  {
  }

  /** The count limit needs a limit of at least one: the first store for a target is not checked. */
  lemma FirstStoreUnchecked(c: Config, t: Target, m: Stored, now: nat)
    ensures var r := StoreMessage(c, EMPTY, t, m, now);
            r.Success? && (QuotaOk(c, r.value) <==> c.maxMessages >= 1)
  {
    var s := StoreMessage(c, EMPTY, t, m, now).value;
    assert MetaOf(s, t).count == 1;
    if c.maxMessages >= 1 {
      assert QuotaOk(c, EMPTY);
      PutQuota(c, EMPTY, t, m, now);
    }
  }

  /** In every store that a run reaches, records are filed under their own identifiers. */
  ghost predicate OwnIds(s: Store) {
    forall t, k | t in s.boxes && k in s.boxes[t] :: s.boxes[t][k].id == k
  }

  lemma {:induction false} RecordsFiled(c: Config, s: Store, run: seq<Timed>)
    requires OwnIds(s)
    ensures OwnIds(After(c, s, run))
    decreases |run|
  {
    if run != [] {
      assert OwnIds(Apply(c, s, run[0]));
      RecordsFiled(c, Apply(c, s, run[0]), run[1..]);
    }
  }

  // ---------------------------------------------------------------- the byte limit

  /** No store of the run takes the branch that evicts. */
  ghost predicate NoEviction(c: Config, s: Store, run: seq<Timed>)
    decreases |run|
  {
    run != [] ==>
      && (run[0].op.Put? ==> !Evicts(c, s, run[0].op.target))
      && NoEviction(c, Apply(c, s, run[0]), run[1..])
  }

  ghost predicate BytesOk(c: Config, s: Store) {
    forall t: Target :: BytesIn(BoxOf(s, t)) <= c.maxTotalBytes
  }

  lemma PutBytes(c: Config, s: Store, x: Timed)
    requires 1 <= c.maxMessages && c.maxMessageSize <= c.maxTotalBytes
    requires x.op.Put? && |x.op.envelope| <= c.maxMessageSize && !Evicts(c, s, x.op.target)
    requires QuotaOk(c, s) && BytesOk(c, s)
    ensures BytesOk(c, Apply(c, s, x))
  {
    var t, m := x.op.target, Record(x.op.id, x.op.sender, x.op.envelope, x.op.ttl, x.now);
    forall u: Target
      ensures BytesIn(BoxOf(Apply(c, s, x), u)) <= c.maxTotalBytes
    {
      assert BytesIn(BoxOf(s, u)) <= MetaOf(s, u).bytes;
      if u == t && PutResult(c, s, x).Success? {
        InsertSize(BoxOf(s, t), m);
      } else {
        assert BoxOf(Apply(c, s, x), u) == BoxOf(s, u);
      }
    }
  }

  lemma ShrinkBytes(c: Config, s: Store, s': Store)
    requires BytesOk(c, s) && forall t :: Part(BoxOf(s', t), BoxOf(s, t))
    ensures BytesOk(c, s')
  {
    forall t: Target
      ensures BytesIn(BoxOf(s', t)) <= c.maxTotalBytes
    {
      PartSmaller(BoxOf(s', t), BoxOf(s, t));
    }
  }

  /** Validated deposits stay within the byte limit of a target as long as no store evicts. */
  lemma {:induction false} BytesHold(c: Config, s: Store, run: seq<Timed>)
    requires 1 <= c.maxMessages && c.maxMessageSize <= c.maxTotalBytes && Validated(c, run)
    requires QuotaOk(c, s) && BytesOk(c, s) && NoEviction(c, s, run)
    ensures BytesOk(c, After(c, s, run))
    decreases |run|
  {
    if run != [] {
      var x := run[0];
      if x.op.Put? {
        PutQuota(c, s, x.op.target, Record(x.op.id, x.op.sender, x.op.envelope, x.op.ttl, x.now), x.now);
        PutBytes(c, s, x);
      } else {
        ShrinkQuota(c, s, Apply(c, s, x));
        ShrinkBytes(c, s, Apply(c, s, x));
      }
      BytesHold(c, Apply(c, s, x), run[1..]);
    }
  }

  /** The size of the record that a store overwrites. */
  function Overwritten(box: Box, id: Id): nat {
    if id in box then box[id].size else 0
  }

  lemma OverwriteBytes(box: Box, m: Stored)
    ensures BytesIn(box[m.id := m]) == BytesIn(box) - Overwritten(box, m.id) + m.size
  {
    BytesWithout(box[m.id := m], m.id);
    if m.id in box {
      BytesWithout(box, m.id);
      assert box[m.id := m] - {m.id} == box - {m.id};
    } else {
      assert box[m.id := m] - {m.id} == box;
    }
  }

  /** What an evicting store does to the bytes of its target: the lowest record goes, whatever its size,
      and the new one comes, perhaps in place of an older one. */
  lemma EvictingPut(c: Config, s: Store, t: Target, m: Stored, now: nat)
    requires Evicts(c, s, t) && !AtCount(c, s, t) && BoxOf(s, t) != map[]
    ensures var box := BoxOf(s, t);
            var k := Least(box.Keys);
            BytesIn(BoxOf(StoreMessage(c, s, t, m, now).value, t))
            == BytesIn(box) - box[k].size - Overwritten(box - {k}, m.id) + m.size
  {
    var box := BoxOf(s, t);
    var k := Least(box.Keys);
    BytesWithout(box, k);
    OverwriteBytes(box - {k}, m);
  }

  /** A store of a validated message keeps its target within the byte limit exactly if it does not evict,
      or what it evicts and overwrites makes room for what comes. */
  lemma StoreWithinBytes(c: Config, s: Store, t: Target, m: Stored, now: nat)
    requires QuotaOk(c, s) && !AtCount(c, s, t) && m.size <= c.maxMessageSize <= c.maxTotalBytes
    ensures var box := BoxOf(s, t);
            BytesIn(BoxOf(StoreMessage(c, s, t, m, now).value, t)) <= c.maxTotalBytes
            <==> (Evicts(c, s, t) && box != map[] ==>
                    var k := Least(box.Keys);
                    BytesIn(box) + m.size <= c.maxTotalBytes + box[k].size + Overwritten(box - {k}, m.id))
  {
    var box := BoxOf(s, t);
    if Evicts(c, s, t) && box != map[] {
      EvictingPut(c, s, t, m, now);
    } else {
      assert BytesIn(box) <= MetaOf(s, t).bytes;
      InsertSize(box, m);
    }
  }

  // ---------------------------------------------------------------- which record eviction removes

  /** Records in the order in which they arrived, each filed under its identifier. */
  function Filed(arrived: seq<Stored>): Box {
    if arrived == [] then map[]
    else
      var last := arrived[|arrived| - 1];
      Filed(arrived[..|arrived| - 1])[last.id := last]
  }

  predicate DistinctIds(arrived: seq<Stored>) {
    forall i, j | 0 <= i < j < |arrived| :: arrived[i].id != arrived[j].id
  }

  predicate InKeyOrder(arrived: seq<Stored>) {
    forall i, j | 0 <= i < j < |arrived| :: arrived[i].id < arrived[j].id
  }

  /** A filed record has arrived. */
  lemma {:induction false} ArrivedAs(arrived: seq<Stored>, k: Id) returns (i: nat)
    requires k in Filed(arrived)
    ensures i < |arrived| && arrived[i].id == k && Filed(arrived)[k] == arrived[i]
  {
    i := |arrived| - 1;
    if arrived[i].id != k {
      i := ArrivedAs(arrived[..i], k);
    }
  }

  lemma {:induction false} IsFiled(arrived: seq<Stored>, i: nat)
    requires i < |arrived| && DistinctIds(arrived)
    ensures arrived[i].id in Filed(arrived) && Filed(arrived)[arrived[i].id] == arrived[i]
  {
    if i < |arrived| - 1 {
      IsFiled(arrived[..|arrived| - 1], i);
    }
  }

  /** Without its first record. */
  lemma FiledWithoutFirst(arrived: seq<Stored>)
    requires arrived != [] && DistinctIds(arrived)
    ensures Filed(arrived) - {arrived[0].id} == Filed(arrived[1..])
  {
    var later := arrived[1..];
    var box, rest := Filed(arrived) - {arrived[0].id}, Filed(later);
    forall k | k in box
      ensures k in rest && rest[k] == box[k]
    {
      var i := ArrivedAs(arrived, k);
      IsFiled(later, i - 1);
    }
    forall k | k in rest
      ensures k in box
    {
      var i := ArrivedAs(later, k);
      IsFiled(arrived, i + 1);
    }
  }

  /** Evicting again and again removes the records in the order in which they arrived. */
  ghost predicate EvictsOldestFirst(s: Store, t: Target, arrived: seq<Stored>)
    decreases |arrived|
  {
    BoxOf(s, t) == Filed(arrived) && (arrived != [] ==> EvictsOldestFirst(Evicted(s, t), t, arrived[1..]))
  }

  /** Eviction removes the oldest record first exactly if identifiers arrive in key order. */
  lemma {:induction false} OldestFirstExactly(s: Store, t: Target, arrived: seq<Stored>)
    requires DistinctIds(arrived) && BoxOf(s, t) == Filed(arrived)
    ensures EvictsOldestFirst(s, t, arrived) <==> InKeyOrder(arrived)
    decreases |arrived|
  {
    if arrived != [] {
      IsFiled(arrived, 0);
      var first, k := arrived[0].id, Least(Filed(arrived).Keys);
      var i := ArrivedAs(arrived, k);
      if k == first {
        FiledWithoutFirst(arrived);
        OldestFirstExactly(Evicted(s, t), t, arrived[1..]);
        forall j: nat | j < |arrived|
          ensures first <= arrived[j].id
        {
          IsFiled(arrived, j);
        }
        FirstIsLeast(arrived);
      } else {
        assert k < first && !InKeyOrder(arrived);
        FirstNotFiled(arrived);
        assert first in BoxOf(Evicted(s, t), t);
      }
    }
  }

  lemma FirstNotFiled(arrived: seq<Stored>)
    requires arrived != [] && DistinctIds(arrived)
    ensures arrived[0].id !in Filed(arrived[1..])
  {
    if arrived[0].id in Filed(arrived[1..]) {
      var i := ArrivedAs(arrived[1..], arrived[0].id);
    }
  }

  /** With the least identifier first, the rest decides. */
  lemma FirstIsLeast(arrived: seq<Stored>)
    requires arrived != [] && DistinctIds(arrived) && forall j | 0 <= j < |arrived| :: arrived[0].id <= arrived[j].id
    ensures InKeyOrder(arrived) <==> InKeyOrder(arrived[1..])
  {
    var rest := arrived[1..];
    assert forall i | 0 <= i < |rest| :: rest[i] == arrived[i + 1];
    if InKeyOrder(rest) {
      forall i, j | 0 <= i < j < |arrived|
        ensures arrived[i].id < arrived[j].id
      {
        if i > 0 {
          assert rest[i - 1].id < rest[j - 1].id;
        }
      }
    }
  }

  /** The store after deposits of 2 bytes under the identifiers 9, at time 0, and 3, at 50 seconds. */
  ghost function TwoDeposits(t: Target): Store {
    var c, envelope := ExampleConfig(), [0, 0];
    After(c, EMPTY, [Timed(Put(t, 9, [], envelope, 60), 0), Timed(Put(t, 3, [], envelope, 60), 50 * SECOND)])
  }

  /** A third deposit evicts the one that was stored later, as its identifier is lower. */
  lemma NewerGoes(t: Target)
    ensures var box := BoxOf(TwoDeposits(t), t);
            && box.Keys == {9, 3} && box[9].storedAt < box[3].storedAt
            && Evicts(ExampleConfig(), TwoDeposits(t), t) && BoxOf(Evicted(TwoDeposits(t), t), t).Keys == {9}
  {
    var c, envelope := ExampleConfig(), [0, 0];
    var first, second := Timed(Put(t, 9, [], envelope, 60), 0), Timed(Put(t, 3, [], envelope, 60), 50 * SECOND);
    assert [first, second][1..] == [second] && [second][1..] == [];
    var s1 := Apply(c, EMPTY, first);
    assert MetaOf(s1, t) == Meta(1, 2, 0, 0) && BoxOf(s1, t).Keys == {9};
    var s2 := Apply(c, s1, second);
    assert MetaOf(s2, t).bytes == 4;
    assert After(c, s2, []) == s2 && After(c, s1, [second]) == s2 && After(c, EMPTY, [first, second]) == s2;
    var box := BoxOf(s2, t);
    assert box.Keys == {9, 3} && box[9].storedAt == 0 && box[3].storedAt == 50;
    assert 3 in box.Keys && Least(box.Keys) == 3;
  }

  // ---------------------------------------------------------------- an input that passes the limit

  function ExampleConfig(): Config {
    Config(10, 4, 7)
  }

  function ExampleRecord(id: Id, size: nat): Stored {
    Stored(id, [], seq(size, _ => 0), 0, 60, size)
  }

  /** Deposits of 1, 4 and 4 bytes, none over the largest size of 4, pass a limit of 7. */
  lemma EvictionOvershoots(t: Target)
    ensures var c := ExampleConfig();
            var r1 := StoreMessage(c, EMPTY, t, ExampleRecord(0, 1), 0);
            r1.Success? &&
            var r2 := StoreMessage(c, r1.value, t, ExampleRecord(1, 4), 0);
            r2.Success? &&
            var r3 := StoreMessage(c, r2.value, t, ExampleRecord(2, 4), 0);
            r3.Success? && BytesIn(BoxOf(r3.value, t)) == 8 > c.maxTotalBytes
  {
    var c, m0, m1 := ExampleConfig(), ExampleRecord(0, 1), ExampleRecord(1, 4);
    var s1 := StoreMessage(c, EMPTY, t, m0, 0).value;
    var s2 := StoreMessage(c, s1, t, m1, 0).value;
    var box: Box := map[0 := m0, 1 := m1];
    assert MetaOf(s1, t) == Meta(1, 1, 0, 0) && MetaOf(s2, t) == Meta(2, 5, 0, 0) && BoxOf(s2, t) == box;
    assert 0 in box.Keys && Least(box.Keys) == 0;
    BytesWithout(box, 0);
    BytesWithout(box - {0}, 1);
    EvictingPut(c, s2, t, ExampleRecord(2, 4), 0);
  }

  // ---------------------------------------------------------------- cleanup

  datatype Output = Answered(ok: bool) | Deleted | Listed(messages: seq<Stored>)

  /** What the callers see. A cleanup has no caller. */
  ghost function Outputs(c: Config, s: Store, run: seq<Timed>): seq<Output>
    decreases |run|
  {
    if run == [] then []
    else
      var x := run[0];
      (match x.op
       case Put(_, _, _, _, _) => [Answered(PutResult(c, s, x).Success?)]
       case Delete(_, _) => [Deleted]
       case List(t) => [Listed(Listing(BoxOf(s, t), x.now))]
       case Cleanup => [])
      + Outputs(c, Apply(c, s, x), run[1..])
  }

  function WithoutCleanup(run: seq<Timed>): seq<Timed> {
    if run == [] then []
    else if run[0].op.Cleanup? then WithoutCleanup(run[1..])
    else [run[0]] + WithoutCleanup(run[1..])
  }

  /** The clock does not go back. */
  ghost predicate Clocked(start: nat, run: seq<Timed>)
    decreases |run|
  {
    run != [] ==> start <= run[0].now && Clocked(run[0].now, run[1..])
  }

  /** The same metadata, and the same records as far as they are not expired. */
  ghost predicate SameLive(s: Store, s': Store, now: nat) {
    s.metas == s'.metas && forall t: Target :: Live(BoxOf(s, t), now) == Live(BoxOf(s', t), now)
  }

  lemma LiveLater(box: Box, box': Box, now: nat, later: nat)
    requires now <= later && Live(box, now) == Live(box', now)
    ensures Live(box, later) == Live(box', later)
  {
    assert Live(Live(box, now), later) == Live(box, later);
    assert Live(Live(box', now), later) == Live(box', later);
  }

  lemma LiveInsert(box: Box, box': Box, m: Stored, now: nat)
    requires Live(box, now) == Live(box', now)
    ensures Live(box[m.id := m], now) == Live(box'[m.id := m], now)
  {
    assert Live(box[m.id := m], now) == if Expired(m, now) then Live(box, now) - {m.id} else Live(box, now)[m.id := m];
    assert Live(box'[m.id := m], now) == if Expired(m, now) then Live(box', now) - {m.id}
           else Live(box', now)[m.id := m];
  }

  lemma LiveRemove(box: Box, box': Box, ids: set<Id>, now: nat)
    requires Live(box, now) == Live(box', now)
    ensures Live(box - ids, now) == Live(box' - ids, now)
  {
    assert Live(box - ids, now) == Live(box, now) - ids;
    assert Live(box' - ids, now) == Live(box', now) - ids;
  }

  lemma {:induction false} ListingLive(box: Box, now: nat)
    ensures Listing(box, now) == Listing(Live(box, now), now)
    decreases |box|
  {
    if box == map[] {
      assert Live(box, now) == map[];
    } else {
      var k := Least(box.Keys);
      SmallerBox(box, k);
      ListingLive(box - {k}, now);
      if Expired(box[k], now) {
        assert Live(box, now) == Live(box - {k}, now);
      } else {
        assert k in Live(box, now).Keys;
        assert IsLeast(Live(box, now).Keys, k);
        assert Live(box, now) - {k} == Live(box - {k}, now);
      }
    }
  }

  lemma SameLiveStep(c: Config, s: Store, s': Store, x: Timed)
    requires SameLive(s, s', x.now) && (x.op.Put? ==> !Evicts(c, s, x.op.target))
    ensures SameLive(Apply(c, s, x), if x.op.Cleanup? then s' else Apply(c, s', x), x.now)
    ensures x.op.Put? ==> PutResult(c, s, x).Success? == PutResult(c, s', x).Success?
  {
    var r, r' := Apply(c, s, x), if x.op.Cleanup? then s' else Apply(c, s', x);
    forall t: Target
      ensures Live(BoxOf(r, t), x.now) == Live(BoxOf(r', t), x.now)
    {
      assert Live(BoxOf(s, t), x.now) == Live(BoxOf(s', t), x.now);
      match x.op
      case Put(u, id, sender, envelope, ttl) =>
        LiveInsert(BoxOf(s, u), BoxOf(s', u), Record(id, sender, envelope, ttl, x.now), x.now);
      case Delete(u, ids) =>
        LiveRemove(BoxOf(s, u), BoxOf(s', u), IdSet(ids), x.now);
      case List(_) =>
      case Cleanup =>
        assert Live(Live(BoxOf(s, t), x.now), x.now) == Live(BoxOf(s, t), x.now);
    }
  }

  lemma {:induction false} SameOutputs(c: Config, s: Store, s': Store, start: nat, run: seq<Timed>)
    requires SameLive(s, s', start) && Clocked(start, run) && NoEviction(c, s, run)
    ensures Outputs(c, s, run) == Outputs(c, s', WithoutCleanup(run))
    decreases |run|
  {
    if run != [] {
      var x := run[0];
      forall t: Target
        ensures Live(BoxOf(s, t), x.now) == Live(BoxOf(s', t), x.now)
      {
        LiveLater(BoxOf(s, t), BoxOf(s', t), start, x.now);
      }
      SameLiveStep(c, s, s', x);
      if x.op.List? {
        ListingLive(BoxOf(s, x.op.target), x.now);
        ListingLive(BoxOf(s', x.op.target), x.now);
      }
      SameOutputs(c, Apply(c, s, x), if x.op.Cleanup? then s' else Apply(c, s', x), x.now, run[1..]);
    }
  }

  /** Expiry cleanup is unobservable: with a clock that does not go back and no eviction, every caller
      of a run sees what it would see with all the cleanups left out. */
  lemma CleanupUnobservable(c: Config, run: seq<Timed>)
    requires Clocked(0, run) && NoEviction(c, EMPTY, run)
    ensures Outputs(c, EMPTY, run) == Outputs(c, EMPTY, WithoutCleanup(run))
  {
    SameOutputs(c, EMPTY, EMPTY, 0, run);
  }
}
