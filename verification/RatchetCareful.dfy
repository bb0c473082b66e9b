/** Careful schedules: each message delivered at most once, none stale, and no skip into a full
    cache. Then no key is lost, so every delivery decrypts. */
module RatchetCareful {
  import opened Wrappers
  import opened Crypto
  import opened Ratchet
  import opened RatchetSession
  import opened RatchetCache

  /** The count is one more than the last message that moved it, and is not ahead of the sender. */
  ghost predicate Counted(x: Session, got: set<(nat, nat)>, lens: seq<nat>, r: int)
    requires r < |lens|
  {
    r >= 1 ==> x.recvCount <= lens[r] && (x.recvCount > 0 ==> (r as nat, x.recvCount - 1) in got)
  }

  ghost predicate CountedBy(net: Net, t: Trace, p: Party)
    requires |net.log| == |t.chains| && t.At(p).r < |t.lens|
  {
    Counted(net.Of(p), GotSlots(net, t, p), t.lens, t.At(p).r)
  }

  ghost predicate CarefulInv(net: Net, t: Trace) {
    LedgerInv(net, t, NO_LOSSES) && CountedBy(net, t, Alice) && CountedBy(net, t, Bob)
  }

  // ---------------------------------------------------------------- nothing is lost

  lemma {:induction false} SkipRangeKeeps(cache: Cache, pub: Option<Pub>, chainKey: Key, lo: nat, hi: nat)
    ensures cache.Keys <= SkipRange(cache, pub, chainKey, lo, hi).Keys
    decreases hi - lo
  {
    if lo < hi {
      SkipRangeKeeps(Remember(cache, (pub, lo), Msg(chainKey)), pub, Next(chainKey), lo + 1, hi);
    }
  }

  /** With room, skipping ahead caches every key that it passes. */
  lemma AdvanceWithRoom(x: Session, n: nat)
    requires n > x.recvCount ==> |x.skipped| + (n - x.recvCount) <= MAX_SKIPPED_KEYS
    ensures var x' := AdvanceTo(x, n);
            && x.skipped.Keys <= x'.skipped.Keys
            && (forall i: nat | x.recvCount <= i < n :: (x.peer, i) in x'.skipped)
            && x'.recvCount == (if n > x.recvCount then n else x.recvCount)
            && |x'.skipped| <= |x.skipped| + (if n > x.recvCount then n - x.recvCount else 0)
  {
    if n > x.recvCount {
      SkipRangeKeeps(x.skipped, x.peer, x.recvKey, x.recvCount, n);
      SkipRangeRoom(x.skipped, x.peer, x.recvKey, x.recvCount, n);
    }
  }

  /** Room for what the delivery skips, before and after its DH step. */
  ghost predicate Room(x: Session, header: Header) {
    |x.skipped| + Skips(x, header) <= MAX_SKIPPED_KEYS
  }

  /** With room, skipping drops nothing. */
  lemma NoneDropped(x: Session, n: nat)
    requires n > x.recvCount ==> |x.skipped| + (n - x.recvCount) <= MAX_SKIPPED_KEYS
    ensures Dropped(x, n) == {}
  {
    forall i: nat | x.recvCount <= i < n
      ensures |AdvanceTo(x, i).skipped| < MAX_SKIPPED_KEYS
    {
      AdvanceWithRoom(x, i);
    }
  }

  /** The DH step leaves room for the rest. */
  lemma RoomAfterDh(x: Session, header: Header, newKey: nat)
    requires Room(x, header) && header.dhPub.Some?
    ensures LostClosing(x, header) == {}
    ensures !Cached(DhPhase(x, header, newKey), header) ==>
              Dropped(DhPhase(x, header, newKey), header.messageNumber) == {}
  {
    var x1 := DhPhase(x, header, newKey);
    if NeedsRatchet(x, header) && !x.recvKey.NoKey? {
      NoneDropped(x, header.previousChainLen);
      AdvanceWithRoom(x, header.previousChainLen);
    }
    NoneDropped(x1, header.messageNumber);
  }

  /** A delivery with room that finds its key loses nothing. */
  lemma NothingLost(x: Session, header: Header, newKey: nat)
    requires Room(x, header) && KeyAvailable(x, header) && header.dhPub.Some?
    ensures LostBy(x, header, newKey) == {}
  {
    RoomAfterDh(x, header, newKey);
    DhAvailable(x, header, newKey);
  }

  /** A message that was not delivered yet still has its key. */
  lemma StillAvailable(net: Net, t: Trace, k: nat)
    requires LogOk(net, t) && CanDeliver(net, t, k) && Frame(net, t)
    requires GotOk(net, t, Receiver(net, k)) && StaysAt(net, t, Receiver(net, k)) && k !in net.Got(Receiver(net, k))
    requires t.At(Receiver(net, k)).r < |net.keys| && KeptBy(net, t, Receiver(net, k), {})
    ensures KeyAvailable(net.Of(Receiver(net, k)), net.log[k].msg.header)
  {
    CachedUnlessLostAt(net, t, NO_LOSSES, k);
  }

  // ---------------------------------------------------------------- counts

  /** A delivery that finds its key moves the count to its own message, or not at all. */
  lemma CountedDelivery(x: Session, x': Session, got: set<(nat, nat)>, lens: seq<nat>, r: int, header: Header)
    requires 1 <= r < |lens| && Counted(x, got, lens, r) && header.messageNumber < lens[r]
    requires header.dhPub == x.peer && KeyAvailable(x, header)
    requires x' == if Cached(x, header) then x.(skipped := x.skipped - {(header.dhPub, header.messageNumber)})
                   else TakenAt(x, header.messageNumber)
    ensures Counted(x', got + {(r, header.messageNumber)}, lens, r)
  {
  }

  lemma CountedGrows(net: Net, t: Trace, net': Net, t': Trace, p: Party)
    requires |net.log| == |t.chains| && |net'.log| == |t'.chains| && t.At(p).r < |t.lens| && CountedBy(net, t, p)
    requires t'.At(p).r == t.At(p).r < |t'.lens| && GotSlots(net, t, p) <= GotSlots(net', t', p)
    requires net'.Of(p).recvCount == net.Of(p).recvCount
    requires t.At(p).r >= 1 ==> t.lens[t.At(p).r] <= t'.lens[t.At(p).r]
    ensures CountedBy(net', t', p)
  {
  }

  lemma SendCounted(net: Net, t: Trace, e: Event, q: Party)
    requires e.Send? && StaysAt(net, t, e.p) && Places(t, |net.keys|) && |net.keys| == |t.lens|
    requires |net.log| == |t.chains| && GotOk(net, t, q) && t.At(q).r < |t.lens| && CountedBy(net, t, q)
    requires |Step(net, e).log| == |SentTrace(t, e.p).chains|
    ensures t.At(q).r == SentTrace(t, e.p).At(q).r < |SentTrace(t, e.p).lens|
    ensures CountedBy(Step(net, e), SentTrace(t, e.p), q)
  {
    SendKeepsReceiving(net, t, e, q);
    SendLens(t, |net.keys|, e.p, q);
    GotSlotsGrow(net, t, Step(net, e), SentTrace(t, e.p), q);
    CountedGrows(net, t, Step(net, e), SentTrace(t, e.p), q);
  }

  /** The receiver after the DH step of a delivery. */
  lemma SyncedCounted(net: Net, t: Trace, net': Net, t': Trace, k: nat, newKey: nat)
    requires CanDeliver(net, t, k) && Frame(net, t) && StaysAt(net, t, Receiver(net, k))
    requires t.At(Receiver(net, k)).r < |net.keys| && CountedBy(net, t, Receiver(net, k))
    requires SyncParts(net, t, net', t', k, newKey)
    requires t'.At(Receiver(net, k)).r == t.chains[k] < |t'.lens|
    ensures CountedBy(net', t', Receiver(net, k))
  {
    var p := Receiver(net, k);
    HonestHeader(net, t, k);
    DhCases(net.Of(p), net.keys, t.At(p).r, t.chains[k], net.log[k].msg.header, newKey);
  }

  /** The receiver after the rest of it. */
  lemma CompletedCounted(net: Net, t: Trace, k: nat)
    requires CanDeliver(net, t, k) && Distinct(net.keys) && StaysAt(net, t, Receiver(net, k))
    requires t.chains[k] == t.At(Receiver(net, k)).r < |t.lens| && CountedBy(net, t, Receiver(net, k))
    requires KeyAvailable(net.Of(Receiver(net, k)), net.log[k].msg.header)
    ensures CountedBy(Completed(net, k), t, Receiver(net, k))
  {
    var p := Receiver(net, k);
    FinishedParty(net, t, k);
    CompletedGots(net, t, k, p);
    CountedDelivery(net.Of(p), Finished(net, k).0, GotSlots(net, t, p), t.lens, t.At(p).r, net.log[k].msg.header);
  }

  lemma OtherCounted(net: Net, t: Trace, k: nat, newKey: nat)
    requires CanDeliver(net, t, k) && GotOk(net, t, Peer(Receiver(net, k)))
    requires t.At(Peer(Receiver(net, k))).r < |t.lens| && CountedBy(net, t, Peer(Receiver(net, k)))
    ensures var q, t' := Peer(Receiver(net, k)), SyncedTrace(t, Receiver(net, k), t.chains[k]);
            && |Step(net, Deliver(k, newKey)).log| == |t'.chains| && t'.At(q).r < |t'.lens|
            && CountedBy(Step(net, Deliver(k, newKey)), t', q)
  {
    var q, t' := Peer(Receiver(net, k)), SyncedTrace(t, Receiver(net, k), t.chains[k]);
    SyncedSame(net, t, k, newKey);
    GotSlotsGrow(net, t, Synced(net, k, newKey), t', q);
    CompletedGots(Synced(net, k, newKey), t', k, q);
    CountedGrows(net, t, Step(net, Deliver(k, newKey)), t', q);
  }

  lemma DeliveryCounted(net: Net, t: Trace, k: nat, newKey: nat) returns (end: Net, t': Trace)
    requires Core(net, t) && CanDeliver(net, t, k) && newKey !in net.keys
    requires GotOk(net, t, Peer(Receiver(net, k))) && KeyAvailable(net.Of(Receiver(net, k)), net.log[k].msg.header)
    requires t.At(Receiver(net, k)).r < |t.lens| && CountedBy(net, t, Receiver(net, k))
    requires t.At(Peer(Receiver(net, k))).r < |t.lens| && CountedBy(net, t, Peer(Receiver(net, k)))
    ensures end == Step(net, Deliver(k, newKey)) && t' == SyncedTrace(t, Receiver(net, k), t.chains[k])
    ensures |end.log| == |t'.chains|
    ensures t'.At(Receiver(net, k)).r < |t'.lens| && CountedBy(end, t', Receiver(net, k))
    ensures t'.At(Peer(Receiver(net, k))).r < |t'.lens| && CountedBy(end, t', Peer(Receiver(net, k)))
  {
    var net1;
    EitherStays(net, t, Receiver(net, k));
    net1, t' := SyncedForLedger(net, t, k, newKey);
    SyncedCounted(net, t, net1, t', k, newKey);
    SyncedAvailable(net, k, newKey);
    CompletedCounted(net1, t', k);
    OtherCounted(net, t, k, newKey);
    end := Step(net, Deliver(k, newKey));
  }

  // ---------------------------------------------------------------- the whole run

  lemma CarefulSend(net: Net, t: Trace, e: Event)
    requires CarefulInv(net, t) && Orderly(net, e) && e.Send?
    ensures CarefulInv(Step(net, e), NextTrace(net, t, e))
  {
    LedgerSend(net, t, NO_LOSSES, e);
    EitherStays(net, t, e.p);
    SendCounted(net, t, e, Alice);
    SendCounted(net, t, e, Bob);
  }

  lemma CarefulParts(net: Net, t: Trace, p: Party)
    requires CarefulInv(net, t)
    ensures Core(net, t) && GotOk(net, t, p) && StaysAt(net, t, p) && t.At(p).r < |net.keys| == |t.lens|
    ensures KeptBy(net, t, p, {}) && CountedBy(net, t, p)
  {
  }

  lemma CarefulOfParts(net: Net, t: Trace, p: Party)
    requires LedgerInv(net, t, NO_LOSSES)
    requires t.At(p).r < |t.lens| && CountedBy(net, t, p) && t.At(Peer(p)).r < |t.lens| && CountedBy(net, t, Peer(p))
    ensures CarefulInv(net, t)
  {
  }

  /** A careful delivery finds its key and loses none. */
  lemma CarefulReady(net: Net, t: Trace, e: Event)
    requires CarefulInv(net, t) && Careful(net, e) && e.Deliver?
    ensures CanDeliver(net, t, e.k)
    ensures KeyAvailable(net.Of(Receiver(net, e.k)), net.log[e.k].msg.header)
    ensures NextLosses(net, NO_LOSSES, e) == NO_LOSSES
  {
    CarefulParts(net, t, Receiver(net, e.k));
    assert LogEntry(net, t, e.k);
    ChainOfDelivery(net, t, e.k);
    StillAvailable(net, t, e.k);
    NothingLost(net.Of(Receiver(net, e.k)), net.log[e.k].msg.header, e.newKey);
  }

  lemma CarefulDeliver(net: Net, t: Trace, e: Event)
    requires CarefulInv(net, t) && Careful(net, e) && e.Deliver?
    ensures CarefulInv(Step(net, e), NextTrace(net, t, e))
  {
    var p := Receiver(net, e.k);
    CarefulReady(net, t, e);
    LedgerDeliver(net, t, NO_LOSSES, e);
    CarefulParts(net, t, p);
    CarefulParts(net, t, Peer(p));
    var end, t' := DeliveryCounted(net, t, e.k, e.newKey);
    CarefulOfParts(end, t', p);
  }

  lemma CarefulStep(net: Net, t: Trace, e: Event)
    requires CarefulInv(net, t) && Careful(net, e)
    ensures CarefulInv(Step(net, e), NextTrace(net, t, e))
    ensures e.Deliver? ==> Delivery(net, e.k, e.newKey).1 == Success(net.log[e.k].plaintext)
  {
    if e.Send? {
      CarefulSend(net, t, e);
    } else {
      CarefulReady(net, t, e);
      CarefulDeliver(net, t, e);
      DeliverInv(net, t, e);
    }
  }

  lemma {:induction false} CarefulRunInv(net: Net, t: Trace, events: seq<Event>)
    requires CarefulInv(net, t) && CarefulRun(net, events)
    ensures AllDecrypt(net, events)
    decreases |events|
  {
    if events != [] {
      CarefulStep(net, t, events[0]);
      CarefulRunInv(Step(net, events[0]), NextTrace(net, t, events[0]), events[1..]);
    }
  }

  /** Session correctness: from X3DH on, on every careful schedule, every delivered message decrypts to
      exactly the plaintext that its sender encrypted. */
  lemma CarefulRunsDecrypt(secret: Key, spk: nat, first: nat, ad: Bytes, events: seq<Event>)
    requires spk != first && CarefulRun(Begin(secret, spk, first, ad), events)
    ensures AllDecrypt(Begin(secret, spk, first, ad), events)
  {
    BeginInv(secret, spk, first, ad);
    CarefulRunInv(Begin(secret, spk, first, ad), Trace(secret, Pos(0, 1), Pos(-1, 0), [0, 0], []), events);
  }

  // ---------------------------------------------------------------- what holds after the run

  function Final(net: Net, events: seq<Event>): Net
    requires CarefulRun(net, events)
    decreases |events|
  {
    if events == [] then net else Final(Step(net, events[0]), events[1..])
  }

  lemma {:induction false} FinalInv(net: Net, t: Trace, events: seq<Event>) returns (t': Trace)
    requires CarefulInv(net, t) && CarefulRun(net, events)
    ensures CarefulInv(Final(net, events), t')
    decreases |events|
  {
    if events == [] {
      t' := t;
    } else {
      CarefulStep(net, t, events[0]);
      t' := FinalInv(Step(net, events[0]), NextTrace(net, t, events[0]), events[1..]);
    }
  }

  /** The receiver of message `k` has got a later message of the same sender. */
  ghost predicate Overtaken(net: Net, k: nat)
    requires k < |net.log|
  {
    exists j :: j in net.Got(Receiver(net, k)) && k < j < |net.log|
  }

  ghost predicate CachedExactly(net: Net, k: nat)
    requires k < |net.log|
  {
    var m, skipped := net.log[k].msg, net.Of(Receiver(net, k)).skipped;
    var slot := (m.header.dhPub, m.header.messageNumber);
    && (slot in skipped <==> k !in net.Got(Receiver(net, k)) && Overtaken(net, k))
    && (slot in skipped ==> m.ciphertext.Sealed? && skipped[slot] == m.ciphertext.key)
  }

  /** The cache holds exactly the keys of the overtaken messages that were not delivered. */
  ghost predicate CacheExact(net: Net) {
    forall k | 0 <= k < |net.log| :: CachedExactly(net, k)
  }

  lemma LaterGot(net: Net, t: Trace, k: nat, j: nat)
    requires LogOk(net, t) && k < |net.log| && j < |net.log| && net.log[j].sender == net.log[k].sender
    requires j in net.Got(Receiver(net, k)) && k !in net.Got(Receiver(net, k))
    requires || t.chains[k] < t.chains[j]
             || (t.chains[k] == t.chains[j]
                 && net.log[k].msg.header.messageNumber <= net.log[j].msg.header.messageNumber)
    ensures Overtaken(net, k)
  {
    assert j < k ==> InOrder(net, t, j, k);
  }

  /** Of a chain that the party has passed message `i` of, something at least as new was received. */
  lemma NewestGot(net: Net, t: Trace, p: Party, c: nat, i: nat) returns (j: nat)
    requires |net.log| == |t.chains| && GotOk(net, t, p) && 1 <= c <= t.At(p).r
    requires c == t.At(p).r ==> i < net.Of(p).recvCount && (c, net.Of(p).recvCount - 1) in GotSlots(net, t, p)
    ensures j in net.Got(p) && j < |net.log| && net.log[j].sender == Peer(p)
    ensures c < t.chains[j] || (c == t.chains[j] && i <= net.log[j].msg.header.messageNumber)
  {
    if c == t.At(p).r {
      j :| j in net.Got(p) && j < |net.log|
           && (t.chains[j], net.log[j].msg.header.messageNumber) == (c, net.Of(p).recvCount - 1);
    } else {
      j :| j in net.Got(p) && j < |net.log| && t.chains[j] == t.At(p).r;
    }
  }

  /** What a party has passed and not got was overtaken. */
  lemma PassedOvertaken(net: Net, t: Trace, k: nat)
    requires CarefulInv(net, t) && k < |net.log| && k !in net.Got(Receiver(net, k))
    ensures PassedBy(net, k) <==> Overtaken(net, k)
  {
    CarefulParts(net, t, Receiver(net, k));
    PassedChains(net, t, k);
    if PassedBy(net, k) {
      PassedIsOvertaken(net, t, k);
    }
    if Overtaken(net, k) {
      OvertakenPassed(net, t, k);
    }
  }

  lemma PassedIsOvertaken(net: Net, t: Trace, k: nat)
    requires LogOk(net, t) && k < |net.log| && k !in net.Got(Receiver(net, k)) && GotOk(net, t, Receiver(net, k))
    requires t.At(Receiver(net, k)).r < |t.lens| && CountedBy(net, t, Receiver(net, k))
    requires var p, c := Receiver(net, k), t.chains[k];
             c < t.At(p).r || (c == t.At(p).r && net.log[k].msg.header.messageNumber < net.Of(p).recvCount)
    ensures Overtaken(net, k)
  {
    assert LogEntry(net, t, k);
    var j := NewestGot(net, t, Receiver(net, k), t.chains[k], net.log[k].msg.header.messageNumber);
    LaterGot(net, t, k, j);
  }

  lemma OvertakenPassed(net: Net, t: Trace, k: nat)
    requires LogOk(net, t) && k < |net.log| && Overtaken(net, k) && GotOk(net, t, Receiver(net, k))
    requires t.At(Receiver(net, k)).r < |net.keys| == |t.lens| && KeptBy(net, t, Receiver(net, k), {})
    ensures var p, c := Receiver(net, k), t.chains[k];
            c < t.At(p).r || (c == t.At(p).r && net.log[k].msg.header.messageNumber < net.Of(p).recvCount)
  {
    var j :| j in net.Got(Receiver(net, k)) && k < j < |net.log|;
    assert InOrder(net, t, k, j);
    assert (t.chains[j], net.log[j].msg.header.messageNumber) in GotSlots(net, t, Receiver(net, k));
  }

  /** A cached key of a message is the one that it is sealed with. */
  lemma CachedSeals(net: Net, t: Trace, k: nat)
    requires k < |net.log| == |t.chains| && LogEntry(net, t, k) && Distinct(net.keys)
    requires StaysAt(net, t, Receiver(net, k)) && Cached(net.Of(Receiver(net, k)), net.log[k].msg.header)
    ensures var m := net.log[k].msg;
            m.ciphertext.Sealed?
            && net.Of(Receiver(net, k)).skipped[(m.header.dhPub, m.header.messageNumber)] == m.ciphertext.key
  {
    var p, h := Receiver(net, k), net.log[k].msg.header;
    SlotOf(net, t, k);
    var d :| IsSlot(net.Of(p), t.secret, net.keys, t.At(p).r, (h.dhPub, h.messageNumber), d);
  }

  lemma CacheExactAt(net: Net, t: Trace, k: nat)
    requires CarefulInv(net, t) && k < |net.log|
    ensures CachedExactly(net, k)
  {
    CarefulParts(net, t, Receiver(net, k));
    CachedUnlessLostAt(net, t, NO_LOSSES, k);
    assert LogEntry(net, t, k);
    if k !in net.Got(Receiver(net, k)) {
      PassedOvertaken(net, t, k);
    }
    if Cached(net.Of(Receiver(net, k)), net.log[k].msg.header) {
      CachedSeals(net, t, k);
    }
  }

  /** In every state of a careful run, a receiver caches the keys of exactly the messages that were
      overtaken and not delivered, and each of those keys is the one that its message is sealed with. */
  lemma CacheIsExact(secret: Key, spk: nat, first: nat, ad: Bytes, events: seq<Event>)
    requires spk != first && CarefulRun(Begin(secret, spk, first, ad), events)
    ensures var net := Final(Begin(secret, spk, first, ad), events);
            CacheExact(net)
  {
    BeginInv(secret, spk, first, ad);
    var t := FinalInv(Begin(secret, spk, first, ad), Trace(secret, Pos(0, 1), Pos(-1, 0), [0, 0], []), events);
    var net := Final(Begin(secret, spk, first, ad), events);
    forall k | 0 <= k < |net.log|
      ensures CachedExactly(net, k)
    {
      CacheExactAt(net, t, k);
    }
  }
}
