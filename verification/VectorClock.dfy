/** Vector clocks of the devices of one identity, and the causal order of their broadcasts. */
module VectorClock {
  import opened Wrappers

  type Device = Bytes

  type Clock = map<Device, nat>

  /** A device that is not in the map counts as zero. */
  function Entry(c: Clock, d: Device): nat {
    if d in c then c[d] else 0
  }

  function Increment(c: Clock, d: Device): Clock {
    c[d := Entry(c, d) + 1]
  }

  /** The entrywise maximum; an entry that is not larger is not copied. */
  function Merge(c: Clock, remote: Clock): Clock {
    c + Larger(c, remote)
  }

  function Larger(c: Clock, remote: Clock): Clock {
    map d | d in remote && Entry(c, d) < remote[d] :: remote[d]
  }

  ghost predicate AtMost(a: Clock, b: Clock) {
    forall d :: Entry(a, d) <= Entry(b, d)
  }

  /** The prefix of the identifier that a sync message carries as its source. */
  function SourceId(d: Device): Bytes {
    if |d| >= 4 then d[..4] else [0, 0, 0, 0]
  }

  /** A device ignores a message whose source is its own prefix. */
  predicate Ignores(d: Device, source: Device) {
    |d| >= 4 && SourceId(source) == SourceId(d)
  }

  // ---------------------------------------------------------------- the sync manager

  class SyncManager {
    const deviceID: Device
    var vectorClock: map<Device, nat>

    constructor (deviceID: Device)
      ensures this.deviceID == deviceID && vectorClock == map[]
    {
      this.deviceID := deviceID;
      vectorClock := map[];
    }

    /** The part of a broadcast that concerns the clock: count, then stamp. */
    method BroadcastStamp() returns (stamp: Clock)
      modifies this
      ensures vectorClock == Increment(old(vectorClock), deviceID) && stamp == vectorClock
    {
      UpdateVectorClock();
      stamp := GetVectorClock();
    }

    /** `decrypts` says whether the payload decrypted and parsed. */
    method HandleStamp(source: Device, remote: Clock, decrypts: bool)
      modifies this
      ensures vectorClock == if Ignores(deviceID, source) || !decrypts then old(vectorClock)
                             else Merge(old(vectorClock), remote)
    {
      if |deviceID| >= 4 {
        if SourceId(source) == SourceId(deviceID) {
          return;
        }
      }
      if !decrypts {
        return;
      }
      MergeVectorClock(remote);
    }

    method UpdateVectorClock()
      modifies this
      ensures vectorClock == Increment(old(vectorClock), deviceID)
    {
      var count := if deviceID in vectorClock then vectorClock[deviceID] else 0;
      vectorClock := vectorClock[deviceID := count + 1];
    }

    /** A copy of the clock. */
    method GetVectorClock() returns (clocks: Clock)
      ensures clocks == vectorClock
    {
      clocks := map[];
      var rest := vectorClock.Keys;
      while rest != {}
        invariant rest <= vectorClock.Keys
        invariant clocks.Keys == vectorClock.Keys - rest
        invariant forall d | d in clocks :: clocks[d] == vectorClock[d]
        decreases |rest|
      {
        var d :| d in rest;
        clocks := clocks[d := vectorClock[d]];
        rest := rest - {d};
      }
    }

    method MergeVectorClock(remote: Clock)
      modifies this
      ensures vectorClock == Merge(old(vectorClock), remote)
    {
      var rest := remote.Keys;
      assert vectorClock == Merge(vectorClock, Without(remote, rest));
      while rest != {}
        invariant rest <= remote.Keys
        invariant vectorClock == Merge(old(vectorClock), Without(remote, rest))
        decreases |rest|
      {
        var d :| d in rest;
        MergeOne(old(vectorClock), remote, rest, d);
        var local := if d in vectorClock then vectorClock[d] else 0;
        if local < remote[d] {
          vectorClock := vectorClock[d := remote[d]];
        }
        rest := rest - {d};
      }
      assert Without(remote, {}) == remote;
    }
  }

  function Without(c: Clock, rest: set<Device>): Clock {
    map d | d in c && d !in rest :: c[d]
  }

  lemma LargerExtend(c: Clock, remote: Clock, d: Device, v: nat)
    requires d !in remote
    ensures Larger(c, remote[d := v]) == if Entry(c, d) < v then Larger(c, remote)[d := v] else Larger(c, remote)
  {
    var remote' := remote[d := v];
    assert forall e | e in remote :: e != d && e in remote' && remote'[e] == remote[e];
  }

  lemma MergeExtend(c: Clock, remote: Clock, d: Device, v: nat)
    requires d !in remote
    ensures Merge(c, remote[d := v]) == if Entry(c, d) < v then Merge(c, remote)[d := v] else Merge(c, remote)
  {
    LargerExtend(c, remote, d, v);
  }

  /** Merging one entry more. */
  lemma MergeOne(c: Clock, remote: Clock, rest: set<Device>, d: Device)
    requires d in rest && rest <= remote.Keys
    ensures Entry(Merge(c, Without(remote, rest)), d) == Entry(c, d)
    ensures Merge(c, Without(remote, rest - {d}))
         == if Entry(c, d) < remote[d] then Merge(c, Without(remote, rest))[d := remote[d]]
             else Merge(c, Without(remote, rest))
  {
    assert Without(remote, rest - {d}) == Without(remote, rest)[d := remote[d]];
    MergeExtend(c, Without(remote, rest), d, remote[d]);
  }

  lemma MergeEntry(c: Clock, remote: Clock, d: Device)
    ensures Entry(Merge(c, remote), d) == if Entry(c, d) < Entry(remote, d) then Entry(remote, d) else Entry(c, d)
  {
  }

  // ---------------------------------------------------------------- runs

  /** A broadcast takes the lock twice: `Bump` counts, and `Emit` copies the clock into the message of the
      broadcast that counted in event `bump`. A `Receive` gets the message of event `source`. */
  datatype Event =
    | Bump(device: Device)
    | Emit(device: Device, bump: nat)
    | Receive(device: Device, source: nat, decrypts: bool)

  /** Messages are lost when they are never received; they are received in any order, any number of times.
      Whatever happens between the two accesses of a broadcast, the second one comes later. */
  ghost predicate ValidRun(run: seq<Event>) {
    forall k | 0 <= k < |run| ::
      && (run[k].Receive? ==> run[k].source < k && run[run[k].source].Emit?)
      && (run[k].Emit? ==> run[k].bump < k && run[run[k].bump] == Bump(run[k].device))
  }

  /** The receipt is taken into account. */
  predicate Accepted(run: seq<Event>, k: nat)
    requires k < |run|
  {
    && run[k].Receive? && run[k].source < k && run[k].decrypts
    && !Ignores(run[k].device, run[run[k].source].device)
  }

  /** The clock of a device after the first `n` events. */
  function ClockOf(run: seq<Event>, n: nat, d: Device): Clock
    requires n <= |run|
    decreases n, 0
  {
    if n == 0 then map[]
    else
      var e, before := run[n - 1], ClockOf(run, n - 1, d);
      if e.device != d then before
      else if e.Bump? then Increment(before, d)
      else if Accepted(run, n - 1) then Merge(before, Stamp(run, e.source))
      else before
  }

  /** The clock that the device has after event `k`: for an `Emit`, the stamp of the message. */
  function Stamp(run: seq<Event>, k: nat): Clock
    requires k < |run|
    decreases k + 1, 1
  {
    ClockOf(run, k + 1, run[k].device)
  }

  /** One step of causality: the next event of the same device, or an accepted receipt. */
  ghost predicate Edge(run: seq<Event>, i: nat, j: nat) {
    && i < j < |run|
    && (run[i].device == run[j].device || (Accepted(run, j) && run[j].source == i))
  }

  ghost predicate Path(run: seq<Event>, path: seq<nat>) {
    forall k {:trigger path[k]} | 0 <= k < |path| - 1 :: Edge(run, path[k], path[k + 1])
  }

  /** The happened-before relation, or equality. */
  ghost predicate Precedes(run: seq<Event>, i: nat, j: nat) {
    exists path: seq<nat> :: path != [] && path[0] == i && path[|path| - 1] == j && Path(run, path)
  }

  // ---------------------------------------------------------------- what each clock counts

  /** How many broadcasts the device counted in the first `n` events. */
  function Count(run: seq<Event>, n: nat, d: Device): nat
    requires n <= |run|
  {
    if n == 0 then 0
    else Count(run, n - 1, d) + if run[n - 1] == Bump(d) then 1 else 0
  }

  lemma {:induction false} CountGrows(run: seq<Event>, m: nat, n: nat, d: Device)
    requires m <= n <= |run|
    ensures Count(run, m, d) <= Count(run, n, d)
    decreases n
  {
    if m < n {
      CountGrows(run, m, n - 1, d);
    }
  }

  /** What event `n - 1` makes of an entry of a clock. */
  lemma EntryStep(run: seq<Event>, n: nat, x: Device, d: Device)
    requires 0 < n <= |run|
    ensures var e, before, after := run[n - 1], Entry(ClockOf(run, n - 1, x), d), Entry(ClockOf(run, n, x), d);
            after == if e.device == x && e.Bump? && x == d then before + 1
                     else if e.device == x && Accepted(run, n - 1) && before < Entry(Stamp(run, e.source), d)
                     then Entry(Stamp(run, e.source), d)
                     else before
  {
    if Accepted(run, n - 1) {
      MergeEntry(ClockOf(run, n - 1, x), Stamp(run, run[n - 1].source), d);
    }
  }

  /** A device counts its own broadcasts exactly, and nobody knows of more of them. */
  lemma {:induction false} ClockCounts(run: seq<Event>, n: nat, x: Device, d: Device)
    requires n <= |run|
    ensures Entry(ClockOf(run, n, x), d) <= Count(run, n, d)
    ensures Entry(ClockOf(run, n, d), d) == Count(run, n, d)
    decreases n
  {
    if n > 0 {
      ClockCounts(run, n - 1, x, d);
      EntryStep(run, n, x, d);
      EntryStep(run, n, d, d);
      if Accepted(run, n - 1) {
        var source := run[n - 1].source;
        ClockCounts(run, source + 1, run[source].device, d);
        CountGrows(run, source + 1, n - 1, d);
      }
    }
  }

  /** The source that a message tells is the first four bytes of its sender, or zeros if it has fewer. */
  predicate TellsPrefix(sender: Device, prefix: Device)
    requires |prefix| == 4
  {
    if |sender| < 4 then prefix == [0, 0, 0, 0] else sender[..4] == prefix
  }

  /** A receipt raises every entry to that of the message, and no further, unless the payload does not decrypt
      or the message tells the receiver's own prefix; then it changes nothing. */
  lemma ReceiptTold(run: seq<Event>, k: nat, d: Device)
    requires ValidRun(run) && k < |run| && run[k].Receive?
    ensures var x, sender := run[k].device, run[run[k].source].device;
            var before, after, stamp := ClockOf(run, k, x), ClockOf(run, k + 1, x), Stamp(run, run[k].source);
            if run[k].decrypts && !(|x| >= 4 && TellsPrefix(sender, x[..4])) then
              Entry(after, d) == if Entry(before, d) < Entry(stamp, d) then Entry(stamp, d) else Entry(before, d)
            else after == before
  {
    EntryStep(run, k + 1, run[k].device, d);
    if |run[k].device| >= 4 {
      assert run[k].device[..4][..4] == run[k].device[..4];
    }
  }

  /** A device's clock never goes back. */
  lemma {:induction false} ClockGrows(run: seq<Event>, m: nat, n: nat, x: Device)
    requires m <= n <= |run|
    ensures AtMost(ClockOf(run, m, x), ClockOf(run, n, x))
    decreases n
  {
    if m < n {
      ClockGrows(run, m, n - 1, x);
      var e := run[n - 1];
      forall d
        ensures Entry(ClockOf(run, n - 1, x), d) <= Entry(ClockOf(run, n, x), d)
      {
        if e.Receive? && Accepted(run, n - 1) {
          MergeEntry(ClockOf(run, n - 1, x), Stamp(run, e.source), d);
        }
      }
    }
  }

  lemma EdgeGrows(run: seq<Event>, i: nat, j: nat)
    requires Edge(run, i, j)
    ensures AtMost(Stamp(run, i), Stamp(run, j))
  {
    if run[i].device == run[j].device {
      ClockGrows(run, i + 1, j + 1, run[i].device);
    } else {
      forall d
        ensures Entry(Stamp(run, i), d) <= Entry(Stamp(run, j), d)
      {
        MergeEntry(ClockOf(run, j, run[j].device), Stamp(run, i), d);
      }
    }
  }

  lemma PathRest(run: seq<Event>, path: seq<nat>)
    requires Path(run, path) && |path| > 1
    ensures Path(run, path[1..]) && Edge(run, path[0], path[1])
  {
    assert forall k {:trigger path[1..][k]} | 0 <= k < |path| - 2 :: Edge(run, path[k + 1], path[k + 2]);
  }

  lemma {:induction false} PathGrows(run: seq<Event>, path: seq<nat>)
    requires path != [] && Path(run, path) && forall k | 0 <= k < |path| :: path[k] < |run|
    ensures AtMost(Stamp(run, path[0]), Stamp(run, path[|path| - 1]))
    decreases |path|
  {
    if |path| > 1 {
      EdgeGrows(run, path[0], path[1]);
      PathRest(run, path);
      PathGrows(run, path[1..]);
    }
  }

  // ---------------------------------------------------------------- causality

  lemma PrecedesSelf(run: seq<Event>, i: nat)
    ensures Precedes(run, i, i)
  {
    assert [i][0] == i && Path(run, [i]);
  }

  lemma PrecedesStep(run: seq<Event>, i: nat, j: nat, k: nat)
    requires Precedes(run, i, j) && Edge(run, j, k)
    ensures Precedes(run, i, k)
  {
    var path: seq<nat> :| path != [] && path[0] == i && path[|path| - 1] == j && Path(run, path);
    var longer := path + [k];
    assert longer[0] == i && longer[|longer| - 1] == k;
    assert Path(run, longer);
  }

  /** An event before `n` of this device that is not one of its own later ones. */
  lemma {:induction false} LastEvent(run: seq<Event>, n: nat, x: Device) returns (k: nat)
    requires n <= |run| && ClockOf(run, n, x) != map[]
    ensures k < n && run[k].device == x && ClockOf(run, n, x) == Stamp(run, k)
    decreases n
  {
    if run[n - 1].device == x {
      k := n - 1;
    } else {
      k := LastEvent(run, n - 1, x);
    }
  }

  /** The device has counted since it last emitted a message. */
  ghost predicate Alone(run: seq<Event>, i: nat)
    requires i < |run|
  {
    forall k | 0 <= k < i && run[k].Emit? && run[k].device == run[i].device ::
      Count(run, k, run[k].device) < Count(run, i, run[i].device)
  }

  /** The message of a broadcast counts it. */
  lemma OwnEntry(run: seq<Event>, i: nat)
    requires ValidRun(run) && i < |run| && run[i].Emit?
    ensures Entry(Stamp(run, i), run[i].device) == Count(run, i, run[i].device) > 0
  {
    var d := run[i].device;
    assert Stamp(run, i) == ClockOf(run, i, d);
    ClockCounts(run, i, d, d);
    BumpCounted(run, run[i].bump, i, d);
  }

  lemma BumpCounted(run: seq<Event>, b: nat, n: nat, d: Device)
    requires b < n <= |run| && run[b] == Bump(d)
    ensures Count(run, n, d) > 0
  {
    CountGrows(run, b + 1, n, d);
  }

  /** If the clock of another device, or a message of this one, counts as many broadcasts as message `i`,
      which comes alone, then `i` precedes it. */
  lemma {:induction false} CountedPrecedes(run: seq<Event>, i: nat, j: nat, d: Device)
    requires ValidRun(run) && i < |run| && j < |run| && run[i].Emit? && run[i].device == d && Alone(run, i)
    requires run[j].device != d || run[j].Emit?
    requires Entry(Stamp(run, j), d) >= Count(run, i, d) > 0
    ensures Precedes(run, i, j)
    decreases j
  {
    var x := run[j].device;
    PrecedesSelf(run, i);
    if x == d {
      OwnEntry(run, j);
      if i < j {
        PrecedesStep(run, i, i, j);
      }
    } else {
      var before := ClockOf(run, j, x);
      if Entry(before, d) >= Count(run, i, d) {
        var k := LastEvent(run, j, x);
        CountedPrecedes(run, i, k, d);
        PrecedesStep(run, i, k, j);
      } else {
        var k := run[j].source;
        MergeEntry(before, Stamp(run, k), d);
        CountedPrecedes(run, i, k, d);
        PrecedesStep(run, i, k, j);
      }
    }
  }

  /** What precedes has the smaller stamp. */
  lemma PrecedesGrows(run: seq<Event>, i: nat, j: nat)
    requires Precedes(run, i, j) && j < |run|
    ensures i <= j && AtMost(Stamp(run, i), Stamp(run, j))
  {
    var path: seq<nat> :| path != [] && path[0] == i && path[|path| - 1] == j && Path(run, path);
    PathInRun(run, path);
    PathGrows(run, path);
  }

  /** Vector clocks characterise causality: of two messages, the first happened before the second or is it,
      exactly when its stamp is entrywise at most the second's, if the first comes alone. */
  lemma StampsCharacteriseCausality(run: seq<Event>, i: nat, j: nat)
    requires ValidRun(run) && i < |run| && j < |run| && run[i].Emit? && run[j].Emit? && Alone(run, i)
    ensures Precedes(run, i, j) <==> AtMost(Stamp(run, i), Stamp(run, j))
  {
    var d := run[i].device;
    if Precedes(run, i, j) {
      PrecedesGrows(run, i, j);
    }
    if AtMost(Stamp(run, i), Stamp(run, j)) {
      OwnEntry(run, i);
      assert Entry(Stamp(run, i), d) <= Entry(Stamp(run, j), d);
      CountedPrecedes(run, i, j, d);
    }
  }

  /** The sender's own entry tells what a message precedes exactly if the message comes alone. */
  lemma OwnEntryTellsExactly(run: seq<Event>, i: nat)
    requires ValidRun(run) && i < |run| && run[i].Emit?
    ensures (forall j | 0 <= j < |run| && run[j].Emit? ::
               Precedes(run, i, j) <==> Entry(Stamp(run, i), run[i].device) <= Entry(Stamp(run, j), run[i].device))
            <==> Alone(run, i)
  {
    var d := run[i].device;
    OwnEntry(run, i);
    if Alone(run, i) {
      forall j | 0 <= j < |run| && run[j].Emit?
        ensures Precedes(run, i, j) <==> Entry(Stamp(run, i), d) <= Entry(Stamp(run, j), d)
      {
        if Precedes(run, i, j) {
          PrecedesGrows(run, i, j);
        } else if Entry(Stamp(run, i), d) <= Entry(Stamp(run, j), d) {
          CountedPrecedes(run, i, j, d);
        }
      }
    } else {
      var k :| 0 <= k < i && run[k].Emit? && run[k].device == d && Count(run, k, d) >= Count(run, i, d);
      OwnEntry(run, k);
      if Precedes(run, i, k) {
        PrecedesGrows(run, i, k);
      }
    }
  }

  /** A message comes alone if the device emitted no other one between the two accesses of its broadcast. */
  lemma UndisturbedIsAlone(run: seq<Event>, i: nat)
    requires ValidRun(run) && i < |run| && run[i].Emit?
    requires forall k | run[i].bump < k < i :: !(run[k].Emit? && run[k].device == run[i].device)
    ensures Alone(run, i)
  {
    var b, d := run[i].bump, run[i].device;
    forall k | 0 <= k < i && run[k].Emit? && run[k].device == d
      ensures Count(run, k, d) < Count(run, i, d)
    {
      CountGrows(run, k, b, d);
      CountGrows(run, b + 1, i, d);
    }
  }

  /** Two broadcasts of one device that both count before either reads: both messages carry the same stamp,
      so the later one seems to precede the earlier one. */
  lemma OverlappingShareStamp(d: Device)
    ensures var run := [Bump(d), Bump(d), Emit(d, 0), Emit(d, 1)];
            && ValidRun(run) && Stamp(run, 2) == Stamp(run, 3) && Alone(run, 2) && !Alone(run, 3)
            && AtMost(Stamp(run, 3), Stamp(run, 2)) && !Precedes(run, 3, 2)
  {
    var run := [Bump(d), Bump(d), Emit(d, 0), Emit(d, 1)];
    assert Count(run, 1, d) == Count(run, 0, d) + 1;
    assert Count(run, 3, d) == Count(run, 2, d) == 2;
    assert ClockOf(run, 3, d) == ClockOf(run, 4, d);
    if Precedes(run, 3, 2) {
      PrecedesGrows(run, 3, 2);
    }
  }

  lemma {:induction false} PathInRun(run: seq<Event>, path: seq<nat>)
    requires path != [] && Path(run, path) && path[|path| - 1] < |run|
    ensures path[0] <= path[|path| - 1] && forall k | 0 <= k < |path| :: path[k] < |run|
    decreases |path|
  {
    if |path| > 1 {
      PathRest(run, path);
      PathInRun(run, path[1..]);
      assert forall k | 1 <= k < |path| :: path[k] == path[1..][k - 1];
    }
  }
}
