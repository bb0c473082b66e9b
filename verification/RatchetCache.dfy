/** What becomes of the keys that a receiving chain passes: on every orderly schedule each of them was
    used by a delivery, is cached, or is lost. A key is lost when it is skipped while the cache is full,
    or when a delivery that fails takes it. */
module RatchetCache {
  import opened Wrappers
  import opened Crypto
  import opened Ratchet
  import opened RatchetSession

  // ---------------------------------------------------------------- what a delivery loses

  /** The slots that skipping to `n` drops: those that it reaches while the cache is full. */
  ghost function Dropped(x: Session, n: nat): set<Slot> {
    set i: nat | x.recvCount <= i < n && |AdvanceTo(x, i).skipped| >= MAX_SKIPPED_KEYS :: (x.peer, i)
  }

  predicate Cached(x: Session, header: Header) {
    (header.dhPub, header.messageNumber) in x.skipped
  }

  /** What closing the receiving chain drops. */
  ghost function LostClosing(x: Session, header: Header): set<Slot> {
    if NeedsRatchet(x, header) && !x.recvKey.NoKey? then Dropped(x, header.previousChainLen) else {}
  }

  /** What is lost after the DH step: without a cached key, the slots that are dropped, and the slot
      whose key a message behind the count takes. */
  ghost function LostFinishing(x: Session, header: Header): set<Slot> {
    if Cached(x, header) then {}
    else Dropped(x, header.messageNumber) + if header.messageNumber < x.recvCount then {(x.peer, x.recvCount)} else {}
  }

  ghost function LostBy(x: Session, header: Header, newKey: nat): set<Slot> {
    LostClosing(x, header) + LostFinishing(DhPhase(x, header, newKey), header)
  }

  lemma {:induction false} SkipRangeExact(cache: Cache, pub: Option<Pub>, chainKey: Key, lo: nat, hi: nat, slot: Slot)
    ensures slot in SkipRange(cache, pub, chainKey, lo, hi)
       <==> slot in cache
            || (slot.0 == pub && lo <= slot.1 < hi && |SkipRange(cache, pub, chainKey, lo, slot.1)| < MAX_SKIPPED_KEYS)
    decreases hi - lo
  {
    if lo < hi {
      SkipRangeExact(Remember(cache, (pub, lo), Msg(chainKey)), pub, Next(chainKey), lo + 1, hi, slot);
    }
  }

  /** Skipping caches exactly the slots that it reaches while the cache has room. */
  lemma AdvanceExact(x: Session, n: nat)
    ensures forall slot: Slot :: slot in AdvanceTo(x, n).skipped
                 <==> slot in x.skipped
                      || (slot.0 == x.peer && x.recvCount <= slot.1 < n
                          && |AdvanceTo(x, slot.1).skipped| < MAX_SKIPPED_KEYS)
    ensures forall slot: Slot | slot.0 == x.peer && x.recvCount <= slot.1 < n ::
              slot in AdvanceTo(x, n).skipped || slot in Dropped(x, n)
  {
    forall slot: Slot
      ensures slot in AdvanceTo(x, n).skipped
         <==> slot in x.skipped
              || (slot.0 == x.peer && x.recvCount <= slot.1 < n && |AdvanceTo(x, slot.1).skipped| < MAX_SKIPPED_KEYS)
      ensures slot.0 == x.peer && x.recvCount <= slot.1 < n ==>
                slot in AdvanceTo(x, n).skipped || slot in Dropped(x, n)
    {
      SkipRangeExact(x.skipped, x.peer, x.recvKey, x.recvCount, n, slot);
      assert slot == (slot.0, slot.1);
    }
  }

  // ---------------------------------------------------------------- one receiver

  /** The messages delivered to a party, as chain and message number. */
  ghost function GotSlots(net: Net, t: Trace, p: Party): set<(nat, nat)>
    requires |net.log| == |t.chains|
  {
    set k | k in net.Got(p) && k < |net.log| :: (t.chains[k], net.log[k].msg.header.messageNumber)
  }

  /** How far the party has come on chain `c`. */
  function Passed(x: Session, lens: seq<nat>, r: int, c: nat): nat
    requires c <= r < |lens|
  {
    if c == r then x.recvCount else lens[c]
  }

  /** The slot is of a chain that the party has opened, behind its count. */
  ghost predicate Behind(keys: seq<nat>, r: int, count: nat, slot: Slot)
    requires r < |keys|
  {
    exists c :: 1 <= c <= r && slot.0 == Some(Pub(keys[c])) && (c == r ==> slot.1 < count)
  }

  /** What the party has passed was delivered, is cached or is lost, and nothing that was delivered or
      lost is cached. */
  ghost predicate Kept(x: Session, got: set<(nat, nat)>, lost: set<Slot>, keys: seq<nat>, lens: seq<nat>, r: int)
    requires r < |keys| == |lens|
  {
    && (forall g | g in got :: g.0 <= r && (g.0 == r ==> g.1 < x.recvCount) && SlotName(keys, g.0, g.1) !in x.skipped)
    && (forall s: Slot | s in lost :: s !in x.skipped && Behind(keys, r, x.recvCount, s))
    && (forall c: nat, i: nat | 1 <= c <= r && c % 2 == r % 2 && i < Passed(x, lens, r, c) ::
          SlotName(keys, c, i) in x.skipped || (c, i) in got || SlotName(keys, c, i) in lost)
  }

  /** Nothing of the receiving chain is cached from the count on. */
  lemma NoneAhead(x: Session, secret: Key, keys: seq<nat>, lens: seq<nat>, pos: Pos)
    requires Stays(x, secret, keys, lens, pos) && Distinct(keys) && pos.r >= 1
    ensures forall s: Slot | s in x.skipped && s.0 == x.peer :: s.1 < x.recvCount
  {
    forall s: Slot | s in x.skipped && s.0 == x.peer
      ensures s.1 < x.recvCount
    {
      var c :| IsSlot(x, secret, keys, pos.r, s, c);
    }
  }

  /** Skipping along the receiving chain: what is passed is cached or dropped. */
  lemma KeptAdvance(x: Session, got: set<(nat, nat)>, lost: set<Slot>, secret: Key, keys: seq<nat>, lens: seq<nat>,
                    pos: Pos, n: nat)
    requires Stays(x, secret, keys, lens, pos) && Distinct(keys) && pos.r >= 1 && Kept(x, got, lost, keys, lens, pos.r)
    ensures Kept(AdvanceTo(x, n), got, lost + Dropped(x, n), keys, lens, pos.r)
  {
    var r, x' := pos.r, AdvanceTo(x, n);
    AdvanceExact(x, n);
    NoneAhead(x, secret, keys, lens, pos);
    forall s: Slot | s in lost + Dropped(x, n)
      ensures s !in x'.skipped && Behind(keys, r, x'.recvCount, s)
    {
      if s in Dropped(x, n) {
        assert s.0 == Some(Pub(keys[r]));
      } else {
        var c :| 1 <= c <= r && s.0 == Some(Pub(keys[c])) && (c == r ==> s.1 < x.recvCount);
      }
    }
    forall c: nat, i: nat | 1 <= c <= r && c % 2 == r % 2 && i < Passed(x', lens, r, c)
      ensures SlotName(keys, c, i) in x'.skipped || (c, i) in got || SlotName(keys, c, i) in lost + Dropped(x, n)
    {
      if i < Passed(x, lens, r, c) {
        assert SlotName(keys, c, i) in x.skipped || (c, i) in got || SlotName(keys, c, i) in lost;
      }
    }
  }

  /** Closing the receiving chain at its length passes all of it. */
  lemma KeptClose(x: Session, got: set<(nat, nat)>, lost: set<Slot>, secret: Key, keys: seq<nat>, lens: seq<nat>,
                  pos: Pos, header: Header) returns (x': Session, lost': set<Slot>)
    requires Stays(x, secret, keys, lens, pos) && Distinct(keys) && pos.r >= 0 && Kept(x, got, lost, keys, lens, pos.r)
    requires NeedsRatchet(x, header) && header.previousChainLen == lens[pos.r]
    ensures x' == CloseReceivingChain(x, lens[pos.r]) && lost' == lost + LostClosing(x, header)
    ensures Kept(x', got, lost', keys, lens, pos.r) && (pos.r >= 1 ==> lens[pos.r] <= x'.recvCount)
  {
    x', lost' := CloseReceivingChain(x, lens[pos.r]), lost + LostClosing(x, header);
    RecvKeySome(x, secret, keys, lens, pos);
    if pos.r >= 1 {
      KeptAdvance(x, got, lost, secret, keys, lens, pos, lens[pos.r]);
    } else {
      assert lost' == lost;
    }
  }

  /** Opening the next chain passes nothing. */
  lemma KeptOpen(x: Session, x': Session, got: set<(nat, nat)>, lost: set<Slot>, keys: seq<nat>, lens: seq<nat>,
                 r: int, newKey: nat)
    requires 0 <= r && r + 3 == |keys| == |lens| && Kept(x, got, lost, keys, lens, r)
             && (r >= 1 ==> lens[r] <= x.recvCount)
    requires x'.skipped == x.skipped && x'.recvCount == 0
    ensures Kept(x', got, lost, keys + [newKey], lens + [0], r + 2)
  {
    var keys', lens', r' := keys + [newKey], lens + [0], r + 2;
    forall g | g in got
      ensures SlotName(keys', g.0, g.1) !in x'.skipped
    {
      assert SlotName(keys', g.0, g.1) == SlotName(keys, g.0, g.1);
    }
    forall s: Slot | s in lost
      ensures Behind(keys', r', 0, s)
    {
      var c :| 1 <= c <= r && s.0 == Some(Pub(keys[c])) && (c == r ==> s.1 < x.recvCount);
      assert keys'[c] == keys[c];
    }
    forall c: nat, i: nat | 1 <= c <= r' && c % 2 == r' % 2 && i < Passed(x', lens', r', c)
      ensures SlotName(keys', c, i) in x'.skipped || (c, i) in got || SlotName(keys', c, i) in lost
    {
      assert c <= r && SlotName(keys', c, i) == SlotName(keys, c, i) && i < Passed(x, lens, r, c);
    }
  }

  lemma RecvKeySome(x: Session, secret: Key, keys: seq<nat>, lens: seq<nat>, pos: Pos)
    requires Placed(x, secret, keys, lens, pos)
    ensures x.recvKey.NoKey? <==> pos.r <= 0
  {
  }

  /** The receiver's DH step. */
  lemma DhPhaseKept(x: Session, got: set<(nat, nat)>, lost: set<Slot>, secret: Key, keys: seq<nat>, lens: seq<nat>,
                    pos: Pos, c: nat, header: Header, newKey: nat)
    requires Stays(x, secret, keys, lens, pos) && Distinct(keys) && Kept(x, got, lost, keys, lens, pos.r)
    requires c < |keys| && ComesNext(pos, |keys|, c) && header.dhPub == Some(Pub(keys[c]))
    requires header.previousChainLen == PreviousLen(lens, c) && lens[0] == 0
    ensures NeedsRatchet(x, header) ==>
              Kept(DhPhase(x, header, newKey), got, lost + LostClosing(x, header), keys + [newKey], lens + [0], c)
    ensures !NeedsRatchet(x, header) ==>
              Kept(DhPhase(x, header, newKey), got, lost + LostClosing(x, header), keys, lens, c)
  {
    DhCases(x, keys, pos.r, c, header, newKey);
    if NeedsRatchet(x, header) {
      var closed, lost1 := KeptClose(x, got, lost, secret, keys, lens, pos, header);
      KeptRatchet(x, closed, got, lost1, keys, lens, c, header, newKey);
    } else {
      assert lost + LostClosing(x, header) == lost;
      KeptSame(x, DhPhase(x, header, newKey), got, lost + LostClosing(x, header), keys, lens, pos.r, c);
    }
  }

  /** The party is on the chain already, or opens its first one. */
  lemma KeptSame(x: Session, x': Session, got: set<(nat, nat)>, lost: set<Slot>, keys: seq<nat>, lens: seq<nat>,
                 r: int, c: nat)
    requires r < |keys| == |lens| && c < |keys| && Kept(x, got, lost, keys, lens, r)
    requires (c == r && x' == x) || (r < 0 && c == 1 && x'.skipped == x.skipped && x'.recvCount == 0)
    ensures Kept(x', got, lost, keys, lens, c)
  {
  }

  /** From the closed chain on. */
  lemma KeptRatchet(x: Session, closed: Session, got: set<(nat, nat)>, lost: set<Slot>, keys: seq<nat>,
                    lens: seq<nat>, c: nat, header: Header, newKey: nat)
    requires NeedsRatchet(x, header) && c >= 2 && |keys| == |lens| == c + 1
    requires closed == CloseReceivingChain(x, header.previousChainLen)
    requires Kept(closed, got, lost, keys, lens, c - 2) && (c > 2 ==> lens[c - 2] <= closed.recvCount)
    ensures Kept(DhPhase(x, header, newKey), got, lost, keys + [newKey], lens + [0], c)
  {
    RatchetParts(x, header, newKey);
    KeptOpen(closed, DhPhase(x, header, newKey), got, lost, keys, lens, c - 2, newKey);
  }

  lemma RatchetParts(x: Session, header: Header, newKey: nat)
    requires NeedsRatchet(x, header)
    ensures DhPhase(x, header, newKey).skipped == CloseReceivingChain(x, header.previousChainLen).skipped
    ensures DhPhase(x, header, newKey).recvCount == 0
  {
  }

  /** A cached key is used up. */
  lemma KeptForget(x: Session, got: set<(nat, nat)>, lost: set<Slot>, keys: seq<nat>, lens: seq<nat>, r: int, i: nat)
    requires 1 <= r < |keys| == |lens| && Kept(x, got, lost, keys, lens, r) && i < x.recvCount && Distinct(keys)
    ensures Kept(x.(skipped := x.skipped - {SlotName(keys, r, i)}), got + {(r, i)}, lost, keys, lens, r)
  {
    var x' := x.(skipped := x.skipped - {SlotName(keys, r, i)});
    forall c: nat, j: nat | 1 <= c <= r && c % 2 == r % 2 && j < Passed(x', lens, r, c)
      ensures SlotName(keys, c, j) in x'.skipped || (c, j) in got + {(r, i)} || SlotName(keys, c, j) in lost
    {
      assert j < Passed(x, lens, r, c);
      assert SlotName(keys, c, j) in x.skipped || (c, j) in got || SlotName(keys, c, j) in lost;
    }
  }

  /** The chain's next key is taken: by the message of that number, or by one behind the count. */
  lemma KeptNext(x: Session, x': Session, got: set<(nat, nat)>, lost: set<Slot>, keys: seq<nat>, lens: seq<nat>,
                 r: int, i: nat)
    requires 1 <= r < |keys| == |lens| && Kept(x, got, lost, keys, lens, r) && Distinct(keys)
    requires x.peer == Some(Pub(keys[r])) && (x.peer, x.recvCount) !in x.skipped
    requires i <= x.recvCount && SlotName(keys, r, i) !in x.skipped
    requires x'.skipped == x.skipped && x'.recvCount == x.recvCount + 1
    ensures Kept(x', got + {(r, i)}, lost + (if i < x.recvCount then {(x.peer, x.recvCount)} else {}), keys, lens, r)
  {
    var got', lost' := got + {(r as nat, i)}, lost + if i < x.recvCount then {(x.peer, x.recvCount)} else {};
    assert SlotName(keys, r, x.recvCount) == (x.peer, x.recvCount);
    forall s: Slot | s in lost'
      ensures s !in x'.skipped && Behind(keys, r, x'.recvCount, s)
    {
      if s in lost {
        var c :| 1 <= c <= r && s.0 == Some(Pub(keys[c])) && (c == r ==> s.1 < x.recvCount);
      } else {
        assert s.0 == Some(Pub(keys[r]));
      }
    }
    forall c: nat, j: nat | 1 <= c <= r && c % 2 == r % 2 && j < Passed(x', lens, r, c)
      ensures SlotName(keys, c, j) in x'.skipped || (c, j) in got' || SlotName(keys, c, j) in lost'
    {
      if j < Passed(x, lens, r, c) {
        assert SlotName(keys, c, j) in x.skipped || (c, j) in got || SlotName(keys, c, j) in lost;
      }
    }
  }

  /** The rest of a delivery on the party's own chain. */
  lemma KeptFinish(x: Session, x': Session, got: set<(nat, nat)>, lost: set<Slot>, secret: Key, keys: seq<nat>,
                   lens: seq<nat>, pos: Pos, header: Header)
    requires Stays(x, secret, keys, lens, pos) && Distinct(keys) && pos.r >= 1 && Kept(x, got, lost, keys, lens, pos.r)
    requires header.dhPub == x.peer
    requires x' == if Cached(x, header) then x.(skipped := x.skipped - {(header.dhPub, header.messageNumber)})
                   else TakenAt(x, header.messageNumber)
    ensures Kept(x', got + {(pos.r, header.messageNumber)}, lost + LostFinishing(x, header), keys, lens, pos.r)
  {
    var r, i := pos.r, header.messageNumber;
    assert SlotName(keys, r, i) == (header.dhPub, i);
    if Cached(x, header) {
      CachedKey(x, secret, keys, r, r, i);
      KeptForget(x, got, lost, keys, lens, r, i);
      assert lost + {} == lost;
    } else {
      KeptTake(x, got, lost, secret, keys, lens, pos, i);
    }
  }

  lemma KeptTake(x: Session, got: set<(nat, nat)>, lost: set<Slot>, secret: Key, keys: seq<nat>, lens: seq<nat>,
                 pos: Pos, i: nat)
    requires Stays(x, secret, keys, lens, pos) && Distinct(keys) && pos.r >= 1 && Kept(x, got, lost, keys, lens, pos.r)
    requires SlotName(keys, pos.r, i) !in x.skipped
    ensures Kept(TakenAt(x, i), got + {(pos.r, i)},
                 lost + (Dropped(x, i) + if i < x.recvCount then {(x.peer, x.recvCount)} else {}), keys, lens, pos.r)
  {
    var x1 := AdvanceTo(x, i);
    KeptAdvance(x, got, lost, secret, keys, lens, pos, i);
    AdvancePlaced(x, secret, keys, lens, pos, i);
    AdvanceExact(x, i);
    NoneAhead(x1, secret, keys, lens, pos);
    KeptNext(x1, TakenAt(x, i), got, lost + Dropped(x, i), keys, lens, pos.r, i);
    UnionOfThree(lost, Dropped(x, i), if i < x.recvCount then {(x.peer, x.recvCount)} else {});
  }

  lemma UnionOfThree(a: set<Slot>, b: set<Slot>, c: set<Slot>)
    ensures (a + b) + c == a + (b + c)
  {
  }

  // ---------------------------------------------------------------- both parties

  /** What each party has lost. */
  datatype Losses = Losses(alice: set<Slot>, bob: set<Slot>)
  {
    function Of(p: Party): set<Slot> {
      if p == Alice then alice else bob
    }

    function Plus(p: Party, more: set<Slot>): Losses {
      if p == Alice then this.(alice := alice + more) else this.(bob := bob + more)
    }
  }

  const NO_LOSSES := Losses({}, {})

  /** The event of a delivery adds what its receiver loses. */
  ghost function NextLosses(net: Net, losses: Losses, e: Event): Losses
    requires Possible(net, e)
  {
    if e.Send? then losses
    else losses.Plus(Receiver(net, e.k), LostBy(net.Of(Receiver(net, e.k)), net.log[e.k].msg.header, e.newKey))
  }

  /** What the parties have lost after the run. */
  ghost function LossesAfter(net: Net, losses: Losses, events: seq<Event>): Losses
    requires OrderlyRun(net, events)
    decreases |events|
  {
    if events == [] then losses else LossesAfter(Step(net, events[0]), NextLosses(net, losses, events[0]), events[1..])
  }

  ghost predicate KeptBy(net: Net, t: Trace, p: Party, lost: set<Slot>)
    requires |net.log| == |t.chains| && t.At(p).r < |net.keys| == |t.lens|
  {
    Kept(net.Of(p), GotSlots(net, t, p), lost, net.keys, t.lens, t.At(p).r)
  }

  ghost predicate LedgerInv(net: Net, t: Trace, losses: Losses) {
    Inv(net, t) && KeptBy(net, t, Alice, losses.alice) && KeptBy(net, t, Bob, losses.bob)
  }

  /** What was kept stays kept while the other chains grow. */
  lemma KeptGrows(x: Session, x': Session, got: set<(nat, nat)>, lost: set<Slot>, keys: seq<nat>, lens: seq<nat>,
                  keys': seq<nat>, lens': seq<nat>, r: int)
    requires r < |keys| == |lens| && Kept(x, got, lost, keys, lens, r)
    requires keys <= keys' && |keys'| == |lens'|
    requires forall c: nat | c < r && c % 2 == r % 2 :: lens[c] == lens'[c]
    requires x'.skipped == x.skipped && x'.recvCount == x.recvCount
    ensures Kept(x', got, lost, keys', lens', r)
  {
    forall s: Slot | s in lost
      ensures Behind(keys', r, x'.recvCount, s)
    {
      var c :| 1 <= c <= r && s.0 == Some(Pub(keys[c])) && (c == r ==> s.1 < x.recvCount);
      assert keys'[c] == keys[c];
    }
    forall c: nat, i: nat | 1 <= c <= r && c % 2 == r % 2 && i < Passed(x', lens', r, c)
      ensures SlotName(keys', c, i) in x'.skipped || (c, i) in got || SlotName(keys', c, i) in lost
    {
      assert i < Passed(x, lens, r, c) && SlotName(keys', c, i) == SlotName(keys, c, i);
    }
  }

  lemma GotSlotsGrow(net: Net, t: Trace, net': Net, t': Trace, p: Party)
    requires |net.log| == |t.chains| && |net'.log| == |t'.chains| && GotOk(net, t, p)
    requires net.log <= net'.log && t.chains <= t'.chains && net'.Got(p) == net.Got(p)
    ensures GotSlots(net', t', p) == GotSlots(net, t, p)
  {
    forall k | k in net.Got(p)
      ensures k < |net.log| && net'.log[k] == net.log[k] && t'.chains[k] == t.chains[k]
    {
    }
  }

  /** A send changes neither the caches nor what was received. */
  lemma SendKeepsReceiving(net: Net, t: Trace, e: Event, q: Party)
    requires e.Send? && StaysAt(net, t, e.p)
    ensures var net' := Step(net, e);
            && net'.Of(q).skipped == net.Of(q).skipped && net'.Of(q).recvCount == net.Of(q).recvCount
            && net.log <= net'.log && net.keys <= net'.keys && net'.Got(q) == net.Got(q)
  {
  }

  /** A send lengthens a chain that the other party has not left, and none that it receives itself. */
  lemma SendLens(t: Trace, n: nat, p: Party, q: Party)
    requires Places(t, n) && n == |t.lens|
    ensures var t' := SentTrace(t, p);
            && |t.lens| <= |t'.lens| && t.chains <= t'.chains && t'.At(q).r == t.At(q).r < n
            && forall c: nat | c <= t.At(q).r && c % 2 == t.At(q).r % 2 ::
                 t.lens[c] <= t'.lens[c] && (c < t.At(q).r ==> t.lens[c] == t'.lens[c])
  {
  }

  lemma SendKept(net: Net, t: Trace, e: Event, q: Party, lost: set<Slot>)
    requires e.Send? && StaysAt(net, t, e.p) && Places(t, |net.keys|) && |net.keys| == |t.lens|
    requires |net.log| == |t.chains| && GotOk(net, t, q) && t.At(q).r < |net.keys| && KeptBy(net, t, q, lost)
    requires |Step(net, e).log| == |SentTrace(t, e.p).chains| && |Step(net, e).keys| == |SentTrace(t, e.p).lens|
    ensures t.At(q).r == SentTrace(t, e.p).At(q).r < |Step(net, e).keys|
    ensures KeptBy(Step(net, e), SentTrace(t, e.p), q, lost)
  {
    var net', t' := Step(net, e), SentTrace(t, e.p);
    SendKeepsReceiving(net, t, e, q);
    SendLens(t, |net.keys|, e.p, q);
    GotSlotsGrow(net, t, net', t', q);
    KeptGrows(net.Of(q), net'.Of(q), GotSlots(net, t, q), lost, net.keys, t.lens, net'.keys, t'.lens, t.At(q).r);
  }

  /** What the DH step of a delivery changes. */
  ghost predicate SyncParts(net: Net, t: Trace, net': Net, t': Trace, k: nat, newKey: nat)
    requires k < |net.log| == |t.chains|
  {
    var p, header := Receiver(net, k), net.log[k].msg.header;
    && |net'.log| == |t'.chains|
    && net'.Of(p) == DhPhase(net.Of(p), header, newKey)
    && net'.keys == (if NeedsRatchet(net.Of(p), header) then net.keys + [newKey] else net.keys)
    && GotSlots(net', t', p) == GotSlots(net, t, p)
    && t'.lens == (if t.At(p).r >= 0 && t.chains[k] != t.At(p).r then t.lens + [0] else t.lens)
  }

  lemma SyncedParts(net: Net, t: Trace, k: nat, newKey: nat)
    requires k < |net.log| == |t.chains|
    ensures SyncParts(net, t, Synced(net, k, newKey), SyncedTrace(t, Receiver(net, k), t.chains[k]), k, newKey)
  {
    SyncedSame(net, t, k, newKey);
  }

  lemma HonestHeader(net: Net, t: Trace, k: nat)
    requires k < |net.log| == |t.chains| && LogEntry(net, t, k)
    ensures t.chains[k] < |net.keys| == |t.lens| && net.log[k].msg.header.dhPub == Some(Pub(net.keys[t.chains[k]]))
    ensures net.log[k].msg.header.previousChainLen == PreviousLen(t.lens, t.chains[k])
  {
  }

  lemma SyncedKept(net: Net, t: Trace, net': Net, t': Trace, got: set<(nat, nat)>, lost: set<Slot>, k: nat, newKey: nat)
    requires CanDeliver(net, t, k) && Frame(net, t) && StaysAt(net, t, Receiver(net, k))
    requires var p := Receiver(net, k);
             t.At(p).r < |net.keys| && Kept(net.Of(p), got, lost, net.keys, t.lens, t.At(p).r)
    requires SyncParts(net, t, net', t', k, newKey)
    requires t'.At(Receiver(net, k)).r == t.chains[k] < |net'.keys| == |t'.lens|
    ensures Kept(net'.Of(Receiver(net, k)), got, lost + LostClosing(net.Of(Receiver(net, k)), net.log[k].msg.header),
                 net'.keys, t'.lens, t.chains[k])
  {
    var p, c, header := Receiver(net, k), t.chains[k], net.log[k].msg.header;
    NextPlaces(t, |net.keys|, p, c);
    HonestHeader(net, t, k);
    DhCases(net.Of(p), net.keys, t.At(p).r, c, header, newKey);
    DhPhaseKept(net.Of(p), got, lost, t.secret, net.keys, t.lens, t.At(p), c, header, newKey);
  }

  lemma SyncedOtherKept(net: Net, t: Trace, k: nat, newKey: nat, lost: set<Slot>)
    requires CanDeliver(net, t, k) && |net.keys| == |t.lens|
    requires var q := Peer(Receiver(net, k)); t.At(q).r < |net.keys| && KeptBy(net, t, q, lost) && GotOk(net, t, q)
    requires |Synced(net, k, newKey).keys| == |SyncedTrace(t, Receiver(net, k), t.chains[k]).lens|
    ensures var q, t' := Peer(Receiver(net, k)), SyncedTrace(t, Receiver(net, k), t.chains[k]);
            var net' := Synced(net, k, newKey);
            && t'.At(q) == t.At(q) && t'.At(q).r < |net'.keys| && |net'.log| == |t'.chains| && KeptBy(net', t', q, lost)
  {
    var q, net', t' := Peer(Receiver(net, k)), Synced(net, k, newKey), SyncedTrace(t, Receiver(net, k), t.chains[k]);
    SyncedSame(net, t, k, newKey);
    GotSlotsGrow(net, t, net', t', q);
    KeptGrows(net.Of(q), net'.Of(q), GotSlots(net, t, q), lost, net.keys, t.lens, net'.keys, t'.lens, t.At(q).r);
  }

  lemma CompletedKept(net: Net, t: Trace, got: set<(nat, nat)>, lost: set<Slot>, k: nat)
    requires CanDeliver(net, t, k) && Distinct(net.keys) && StaysAt(net, t, Receiver(net, k))
    requires t.chains[k] == t.At(Receiver(net, k)).r
    requires Kept(net.Of(Receiver(net, k)), got, lost, net.keys, t.lens, t.chains[k])
    ensures Kept(Completed(net, k).Of(Receiver(net, k)), got + {(t.chains[k], net.log[k].msg.header.messageNumber)},
                 lost + LostFinishing(net.Of(Receiver(net, k)), net.log[k].msg.header), net.keys, t.lens, t.chains[k])
  {
    var p := Receiver(net, k);
    FinishedParty(net, t, k);
    HonestHeader(net, t, k);
    KeptFinish(net.Of(p), Finished(net, k).0, got, lost, t.secret, net.keys, t.lens, t.At(p), net.log[k].msg.header);
  }

  lemma CompletedGots(net: Net, t: Trace, k: nat, p: Party)
    requires k < |net.log| == |t.chains|
    ensures GotSlots(Completed(net, k), t, p)
         == if p == Receiver(net, k) then GotSlots(net, t, p) + {(t.chains[k], net.log[k].msg.header.messageNumber)}
            else GotSlots(net, t, p)
  {
  }

  /** The receiver of a delivery: its DH step, to `net'`, and the rest. */
  lemma ReceiverKept(net: Net, t: Trace, net': Net, t': Trace, k: nat, newKey: nat, lost: set<Slot>)
    requires CanDeliver(net, t, k) && Frame(net, t) && StaysAt(net, t, Receiver(net, k))
    requires t.At(Receiver(net, k)).r < |net.keys| && KeptBy(net, t, Receiver(net, k), lost)
    requires SyncParts(net, t, net', t', k, newKey)
    requires CanDeliver(net', t', k) && Distinct(net'.keys) && |net'.keys| == |t'.lens|
             && StaysAt(net', t', Receiver(net, k))
    requires Receiver(net', k) == Receiver(net, k) && net'.log == net.log
    requires t'.chains[k] == t'.At(Receiver(net, k)).r == t.chains[k] < |net'.keys|
    ensures |Completed(net', k).log| == |t'.chains| && Completed(net', k).keys == net'.keys
    ensures KeptBy(Completed(net', k), t', Receiver(net, k),
                   lost + LostBy(net.Of(Receiver(net, k)), net.log[k].msg.header, newKey))
  {
    var p, header := Receiver(net, k), net.log[k].msg.header;
    var got, lost1 := GotSlots(net, t, p), lost + LostClosing(net.Of(p), header);
    SyncedKept(net, t, net', t', got, lost, k, newKey);
    CompletedKept(net', t', got, lost1, k);
    CompletedGots(net', t', k, p);
    UnionOfThree(lost, LostClosing(net.Of(p), header), LostFinishing(net'.Of(p), header));
  }

  /** The other party is not touched. */
  lemma OtherKept(net: Net, t: Trace, k: nat, newKey: nat, lost: set<Slot>)
    requires CanDeliver(net, t, k) && |net.keys| == |t.lens|
    requires var q := Peer(Receiver(net, k)); t.At(q).r < |net.keys| && KeptBy(net, t, q, lost) && GotOk(net, t, q)
    requires |Synced(net, k, newKey).keys| == |SyncedTrace(t, Receiver(net, k), t.chains[k]).lens|
    ensures var q, t' := Peer(Receiver(net, k)), SyncedTrace(t, Receiver(net, k), t.chains[k]);
            var net' := Step(net, Deliver(k, newKey));
            t'.At(q).r < |net'.keys| == |t'.lens| && |net'.log| == |t'.chains| && KeptBy(net', t', q, lost)
  {
    SyncedSame(net, t, k, newKey);
    SyncedOtherKept(net, t, k, newKey, lost);
    CompletedGots(Synced(net, k, newKey), SyncedTrace(t, Receiver(net, k), t.chains[k]), k, Peer(Receiver(net, k)));
  }

  lemma BothKept(net: Net, t: Trace, losses: Losses, p: Party, mine: set<Slot>, other: set<Slot>)
    requires Inv(net, t) && t.At(p).r < |net.keys| && t.At(Peer(p)).r < |net.keys|
    requires mine == losses.Of(p) && other == losses.Of(Peer(p))
    requires KeptBy(net, t, p, mine) && KeptBy(net, t, Peer(p), other)
    ensures LedgerInv(net, t, losses)
  {
  }

  /** The DH step of a delivery, with what the receiver's lemma needs of it. */
  lemma SyncedForLedger(net: Net, t: Trace, k: nat, newKey: nat) returns (net': Net, t': Trace)
    requires Core(net, t) && CanDeliver(net, t, k) && newKey !in net.keys
    ensures net' == Synced(net, k, newKey) && t' == SyncedTrace(t, Receiver(net, k), t.chains[k])
    ensures SyncParts(net, t, net', t', k, newKey)
    ensures CanDeliver(net', t', k) && Distinct(net'.keys) && |net'.keys| == |t'.lens|
            && StaysAt(net', t', Receiver(net, k))
    ensures Receiver(net', k) == Receiver(net, k) && net'.log == net.log
    ensures t'.chains[k] == t'.At(Receiver(net, k)).r == t.chains[k] < |net'.keys|
    ensures Step(net, Deliver(k, newKey)) == Completed(net', k)
  {
    net', t' := Synced(net, k, newKey), SyncedTrace(t, Receiver(net, k), t.chains[k]);
    SyncedSame(net, t, k, newKey);
    SyncedParts(net, t, k, newKey);
    SyncedCanDeliver(net, t, k, newKey);
    HonestHeader(net', t', k);
  }

  /** Both parties after a delivery. */
  lemma DeliveryKept(net: Net, t: Trace, losses: Losses, k: nat, newKey: nat)
    returns (end: Net, t': Trace, mine: set<Slot>, other: set<Slot>)
    requires LedgerInv(net, t, losses) && CanDeliver(net, t, k) && newKey !in net.keys
    ensures end == Step(net, Deliver(k, newKey)) && t' == SyncedTrace(t, Receiver(net, k), t.chains[k])
    ensures mine == losses.Of(Receiver(net, k)) + LostBy(net.Of(Receiver(net, k)), net.log[k].msg.header, newKey)
    ensures other == losses.Of(Peer(Receiver(net, k)))
    ensures |end.log| == |t'.chains| && |end.keys| == |t'.lens|
    ensures t'.At(Receiver(net, k)).r < |end.keys| && t'.At(Peer(Receiver(net, k))).r < |end.keys|
    ensures KeptBy(end, t', Receiver(net, k), mine) && KeptBy(end, t', Peer(Receiver(net, k)), other)
  {
    var p := Receiver(net, k);
    LedgerParts(net, t, losses, p);
    LedgerParts(net, t, losses, Peer(p));
    var net1, t1 := SyncedForLedger(net, t, k, newKey);
    ReceiverKept(net, t, net1, t1, k, newKey, losses.Of(p));
    OtherKept(net, t, k, newKey, losses.Of(Peer(p)));
    end, t' := Step(net, Deliver(k, newKey)), t1;
    mine, other := losses.Of(p) + LostBy(net.Of(p), net.log[k].msg.header, newKey), losses.Of(Peer(p));
  }

  lemma LedgerDeliver(net: Net, t: Trace, losses: Losses, e: Event)
    requires LedgerInv(net, t, losses) && Orderly(net, e) && e.Deliver?
    ensures LedgerInv(Step(net, e), NextTrace(net, t, e), NextLosses(net, losses, e))
  {
    ChainOfDelivery(net, t, e.k);
    assert LogEntry(net, t, e.k);
    DeliverInv(net, t, e);
    var end, t', mine, other := DeliveryKept(net, t, losses, e.k, e.newKey);
    BothKept(end, t', NextLosses(net, losses, e), Receiver(net, e.k), mine, other);
  }

  lemma LedgerSend(net: Net, t: Trace, losses: Losses, e: Event)
    requires LedgerInv(net, t, losses) && Orderly(net, e) && e.Send?
    ensures LedgerInv(Step(net, e), NextTrace(net, t, e), losses)
  {
    SendInv(net, t, e);
    EitherStays(net, t, e.p);
    SendKept(net, t, e, Alice, losses.alice);
    SendKept(net, t, e, Bob, losses.bob);
  }

  lemma LedgerStep(net: Net, t: Trace, losses: Losses, e: Event) returns (t': Trace)
    requires LedgerInv(net, t, losses) && Orderly(net, e)
    ensures t' == NextTrace(net, t, e) && LedgerInv(Step(net, e), t', NextLosses(net, losses, e))
  {
    t' := NextTrace(net, t, e);
    if e.Send? {
      LedgerSend(net, t, losses, e);
    } else {
      LedgerDeliver(net, t, losses, e);
    }
  }

  lemma {:induction false} LedgerRun(net: Net, t: Trace, losses: Losses, events: seq<Event>) returns (t': Trace)
    requires LedgerInv(net, t, losses) && OrderlyRun(net, events)
    ensures LedgerInv(Reached(net, events), t', LossesAfter(net, losses, events))
    decreases |events|
  {
    if events == [] {
      t' := t;
    } else {
      var t1 := LedgerStep(net, t, losses, events[0]);
      t' := LedgerRun(Step(net, events[0]), t1, NextLosses(net, losses, events[0]), events[1..]);
    }
  }

  // ---------------------------------------------------------------- the cache, exactly

  /** The sender put each message in its own slot, so a slot that was received is that message. */
  lemma SlotUnique(net: Net, t: Trace, k: nat)
    requires LogOk(net, t) && k < |net.log| && GotOk(net, t, Receiver(net, k))
    requires (t.chains[k], net.log[k].msg.header.messageNumber) in GotSlots(net, t, Receiver(net, k))
    ensures k in net.Got(Receiver(net, k))
  {
    var j :| j in net.Got(Receiver(net, k)) && j < |net.log|
             && (t.chains[j], net.log[j].msg.header.messageNumber)
                 == (t.chains[k], net.log[k].msg.header.messageNumber);
  }

  lemma NotGot(net: Net, t: Trace, k: nat)
    requires k < |net.log| == |t.chains|
    requires (t.chains[k], net.log[k].msg.header.messageNumber) !in GotSlots(net, t, Receiver(net, k))
    ensures k !in net.Got(Receiver(net, k))
  {
  }

  lemma SentParity(t: Trace, n: nat, p: Party, c: nat)
    requires Places(t, n) && c % 2 == t.At(Peer(p)).s % 2
    ensures c % 2 == t.At(p).r % 2
  {
  }

  lemma SlotOf(net: Net, t: Trace, k: nat)
    requires k < |net.log| == |t.chains| && LogEntry(net, t, k)
    ensures var e := net.log[k].msg;
            && (e.header.dhPub, e.header.messageNumber) == SlotName(net.keys, t.chains[k], e.header.messageNumber)
            && e.ciphertext.Sealed?
            && e.ciphertext.key == SlotKey(t.secret, net.keys, t.chains[k], e.header.messageNumber)
  {
  }

  /** The receiver's chains have passed message `k`: it is behind the count of the current chain, or a
      message of a newer chain was delivered. */
  ghost predicate PassedBy(net: Net, k: nat)
    requires k < |net.log|
  {
    var x, h := net.Of(Receiver(net, k)), net.log[k].msg.header;
    (h.dhPub == x.peer && h.messageNumber < x.recvCount) || !NotStale(net, k)
  }

  /** The key of message `k` is cached exactly if its chain has passed it, it was not delivered, and its
      key was not lost. */
  ghost predicate CachedUnlessLost(net: Net, losses: Losses, k: nat)
    requires k < |net.log|
  {
    var h := net.log[k].msg.header;
    Cached(net.Of(Receiver(net, k)), h)
    <==> && PassedBy(net, k) && k !in net.Got(Receiver(net, k))
         && (h.dhPub, h.messageNumber) !in losses.Of(Receiver(net, k))
  }

  /** Passed, in terms of chains. */
  lemma PassedChains(net: Net, t: Trace, k: nat)
    requires k < |net.log| && LogOk(net, t) && Distinct(net.keys) && |net.keys| == |t.lens|
    requires GotOk(net, t, Receiver(net, k)) && StaysAt(net, t, Receiver(net, k))
    ensures var p, c := Receiver(net, k), t.chains[k];
            PassedBy(net, k) <==> c < t.At(p).r
                                  || (c == t.At(p).r && net.log[k].msg.header.messageNumber < net.Of(p).recvCount)
  {
    var p, c := Receiver(net, k), t.chains[k];
    assert LogEntry(net, t, k);
    if !NotStale(net, k) {
      var j :| j in net.Got(p) && k < j < |net.log| && net.log[j].msg.header.dhPub != net.log[k].msg.header.dhPub;
      assert LogEntry(net, t, j) && InOrder(net, t, k, j);
    }
    if c < t.At(p).r {
      var j :| j in net.Got(p) && j < |net.log| && t.chains[j] == t.At(p).r;
      assert LogEntry(net, t, j);
      assert j < k ==> InOrder(net, t, j, k);
    }
  }

  lemma CachedUnlessLostAt(net: Net, t: Trace, losses: Losses, k: nat)
    requires k < |net.log| && LogOk(net, t) && Frame(net, t)
    requires GotOk(net, t, Receiver(net, k)) && StaysAt(net, t, Receiver(net, k))
    requires t.At(Receiver(net, k)).r < |net.keys| && KeptBy(net, t, Receiver(net, k), losses.Of(Receiver(net, k)))
    ensures CachedUnlessLost(net, losses, k)
  {
    var p, c, i := Receiver(net, k), t.chains[k], net.log[k].msg.header.messageNumber;
    PassedChains(net, t, k);
    assert LogEntry(net, t, k);
    SlotOf(net, t, k);
    SentParity(t, |net.keys|, p, c);
    if Cached(net.Of(p), net.log[k].msg.header) {
      var d :| IsSlot(net.Of(p), t.secret, net.keys, t.At(p).r, SlotName(net.keys, c, i), d);
      NotGot(net, t, k);
    } else if PassedBy(net, k) && k !in net.Got(p) {
      assert i < Passed(net.Of(p), t.lens, t.At(p).r, c);
      if (c, i) in GotSlots(net, t, p) {
        SlotUnique(net, t, k);
      }
    }
  }

  /** In every state of an orderly run, repeats and a full cache included: a receiver caches the keys of
      exactly those messages that its chains have passed, that were not delivered, and whose keys were
      not lost. */
  lemma OrderlyCacheIsExact(secret: Key, spk: nat, first: nat, ad: Bytes, events: seq<Event>, k: nat)
    requires spk != first && OrderlyRun(Begin(secret, spk, first, ad), events)
    requires k < |Reached(Begin(secret, spk, first, ad), events).log|
    ensures CachedUnlessLost(Reached(Begin(secret, spk, first, ad), events),
                             LossesAfter(Begin(secret, spk, first, ad), NO_LOSSES, events), k)
  {
    BeginInv(secret, spk, first, ad);
    var net := Reached(Begin(secret, spk, first, ad), events);
    var losses := LossesAfter(Begin(secret, spk, first, ad), NO_LOSSES, events);
    var t := LedgerRun(Begin(secret, spk, first, ad), Trace(secret, Pos(0, 1), Pos(-1, 0), [0, 0], []),
                       NO_LOSSES, events);
    LedgerParts(net, t, losses, Receiver(net, k));
    CachedUnlessLostAt(net, t, losses, k);
  }

  lemma LedgerParts(net: Net, t: Trace, losses: Losses, p: Party)
    requires LedgerInv(net, t, losses)
    ensures LogOk(net, t) && Frame(net, t) && GotOk(net, t, p) && StaysAt(net, t, p)
    ensures t.At(p).r < |net.keys| && KeptBy(net, t, p, losses.Of(p))
  {
  }
}
