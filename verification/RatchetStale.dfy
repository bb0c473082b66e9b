/** `Decrypt` takes the DH step before it looks for a cached key, where section 3.5 of "The Double
    Ratchet Algorithm" looks first. A message of an older chain therefore derails the session. */
module RatchetStale {
  import opened Wrappers
  import opened Crypto
  import opened Ratchet
  import opened RatchetSession
  import opened RatchetCache
  import opened RatchetOnce

  lemma {:induction false} RootAtDepth(secret: Key, keys: seq<nat>, k: nat)
    requires k < |keys|
    ensures RootDepth(RootAt(secret, keys, k)) == RootDepth(secret) + k
  {
    if k > 0 {
      RootAtDepth(secret, keys, k - 1);
    }
  }

  lemma {:induction false} KeyAtRank(chainKey: Key, n: nat)
    ensures ChainRank(KeyAt(chainKey, n)) == ChainRank(chainKey)
  {
    if n > 0 {
      KeyAtRank(chainKey, n - 1);
    }
  }

  lemma SlotRank(secret: Key, keys: seq<nat>, c: nat, i: nat)
    requires 1 <= c < |keys|
    ensures ChainRank(SlotKey(secret, keys, c, i).chainKey) == RootDepth(secret) + c
  {
    KeyAtRank(ChainAt(secret, keys, c), i);
    RootAtDepth(secret, keys, c - 1);
  }

  /** Every ratcheting delivery opens a chain ranked above the root that the session had. */
  lemma RatchetRank(x: Session, header: Header, newKey: nat)
    requires NeedsRatchet(x, header)
    ensures var x' := DhPhase(x, header, newKey);
            && ChainRank(x'.recvKey) == RootDepth(x.root) + 1 && RootDepth(x'.root) == RootDepth(x.root) + 2
            && x'.peer == header.dhPub && x'.recvCount == 0 && x'.recvKey.Chain?
            && x'.skipped == CloseReceivingChain(x, header.previousChainLen).skipped
  {
  }

  // ---------------------------------------------------------------- slots of other chains

  /** After the DH step only slots of the current peer key change. */
  lemma FinishOthers(x: Session, header: Header, ciphertext: Ciphertext, ad: Bytes, other: Option<Pub>)
    requires other != x.peer && other != header.dhPub
    ensures var x' := Finish(x, header, ciphertext, ad).0;
            x'.root == x.root && x'.peer == x.peer && SameSlots(x.skipped, x'.skipped, other)
  {
    ChainDecryptOthers(x.(skipped := x.skipped - {(header.dhPub, header.messageNumber)}), header, ciphertext, ad,
                       other);
  }

  lemma ChainDecryptOthers(x: Session, header: Header, ciphertext: Ciphertext, ad: Bytes, other: Option<Pub>)
    requires other != x.peer
    ensures var x' := ChainDecrypt(x, header, ciphertext, ad).0;
            x'.root == x.root && x'.peer == x.peer && SameSlots(x.skipped, x'.skipped, other)
  {
    SkipRangeOthers(x.skipped, x.peer, x.recvKey, x.recvCount, header.messageNumber, other);
  }

  // ---------------------------------------------------------------- one message of another chain

  /** With a key that is not the cached one and not of the chain's rank, decryption fails. */
  lemma WrongKeyFails(x: Session, header: Header, key: Key, ad: Bytes, plaintext: Bytes)
    requires !x.recvKey.NoKey? && key.Msg? && ChainRank(key.chainKey) != ChainRank(x.recvKey)
    requires Cached(x, header) ==> x.skipped[(header.dhPub, header.messageNumber)] != key
    ensures Finish(x, header, SealedFor(key, header.messageNumber, ad, plaintext), ad).1 == Failure(DecryptionFailed)
  {
    ChainDecryptFails(x.(skipped := x.skipped - {(header.dhPub, header.messageNumber)}), header, key, ad, plaintext);
  }

  lemma ChainDecryptFails(x: Session, header: Header, key: Key, ad: Bytes, plaintext: Bytes)
    requires !x.recvKey.NoKey? && key.Msg? && ChainRank(key.chainKey) != ChainRank(x.recvKey)
    ensures ChainDecrypt(x, header, SealedFor(key, header.messageNumber, ad, plaintext), ad).1
            == Failure(DecryptionFailed)
  {
    if header.messageNumber > x.recvCount {
      KeyAtRank(x.recvKey, header.messageNumber - x.recvCount);
    }
  }

  /** A ratcheting delivery of a message that an older root made: it opens exactly if it is cached
      under its own key after the old chain is closed. */
  lemma OldRootOpens(x: Session, header: Header, key: Key, ad: Bytes, plaintext: Bytes, newKey: nat)
    requires NeedsRatchet(x, header) && key.Msg? && ChainRank(key.chainKey) <= RootDepth(x.root)
    requires Cached(x, header) ==> x.skipped[(header.dhPub, header.messageNumber)] == key
    ensures Decrypt(x, header, SealedFor(key, header.messageNumber, ad, plaintext), ad, newKey).1
            == if Cached(x, header) then Success(plaintext) else Failure(DecryptionFailed)
  {
    RatchetRank(x, header, newKey);
    CloseOthers(x, header.previousChainLen, header.dhPub);
    var x1 := DhPhase(x, header, newKey);
    assert (header.dhPub, header.messageNumber) in x1.skipped <==> Cached(x, header);
    if !Cached(x, header) {
      WrongKeyFails(x1, header, key, ad, plaintext);
    }
  }

  /** A ratcheting delivery leaves of the old chain what closing it left. */
  lemma AfterRatchet(x: Session, k: Header, kText: Ciphertext, ad: Bytes, newKey: nat)
    requires NeedsRatchet(x, k)
    ensures var x' := Decrypt(x, k, kText, ad, newKey).0;
            && RootDepth(x'.root) == RootDepth(x.root) + 2 && x'.peer == k.dhPub
            && SameSlots(CloseReceivingChain(x, k.previousChainLen).skipped, x'.skipped, x.peer)
  {
    RatchetRank(x, k, newKey);
    FinishOthers(DhPhase(x, k, newKey), k, kText, ad, x.peer);
  }

  // ---------------------------------------------------------------- the exact condition

  /** Skipping would reach message number `n` while the cache has room. */
  ghost predicate RoomAt(x: Session, n: nat) {
    |AdvanceTo(x, n).skipped| < MAX_SKIPPED_KEYS
  }

  /** After a delivery with header `k`, the receiver `x` opens the message with header `m` of its own
      chain. On the same chain, `k` must be another message, and `m` ahead of it and of the count, or
      cached, or the next one while `k` was cached, or skipped by `k` with room. If `k` has another ratchet
      key, `m` must be cached, or skipped with room when the chain is closed at the length in `k`. */
  ghost predicate StillOpens(x: Session, k: Header, m: Header) {
    var i, n := k.messageNumber, m.messageNumber;
    if k.dhPub == m.dhPub then
      i != n && (|| Cached(x, m)
                 || (n > x.recvCount && n > i)
                 || (n == x.recvCount && Cached(x, k))
                 || (x.recvCount <= n < i && RoomAt(x, n)))
    else
      Cached(x, m) || (x.recvCount <= n < k.previousChainLen && RoomAt(x, n))
  }

  /** The receiver's own chain after a delivery on it. */
  lemma OwnChainOpens(x: Session, secret: Key, keys: seq<nat>, lens: seq<nat>, pos: Pos, k: Header, m: Header)
    requires Stays(x, secret, keys, lens, pos) && Distinct(keys) && pos.r >= 1 && k.dhPub == m.dhPub == x.peer
    ensures var x' := if Cached(x, k) then x.(skipped := x.skipped - {(k.dhPub, k.messageNumber)})
                      else TakenAt(x, k.messageNumber);
            KeyAvailable(x', m) <==> StillOpens(x, k, m)
  {
    NoneAhead(x, secret, keys, lens, pos);
    AdvanceExact(x, k.messageNumber);
  }

  /** Another chain's message, and then one of the receiver's chain. */
  lemma OtherChainOpens(x: Session, secret: Key, keys: seq<nat>, lens: seq<nat>, pos: Pos, k: Header, kText: Ciphertext,
                        m: Header, ad: Bytes, plaintext: Bytes, newKey: nat, newKey2: nat)
    requires Stays(x, secret, keys, lens, pos) && Distinct(keys) && pos.r >= 1
    requires NeedsRatchet(x, k) && m.dhPub == x.peer
    ensures Decrypt(Decrypt(x, k, kText, ad, newKey).0, m,
                    SealedFor(SlotKey(secret, keys, pos.r, m.messageNumber), m.messageNumber, ad, plaintext),
                    ad, newKey2).1
            == if StillOpens(x, k, m) then Success(plaintext) else Failure(DecryptionFailed)
  {
    ClosedSlot(x, secret, keys, lens, pos, k.previousChainLen, m.messageNumber);
    AfterRatchet(x, k, kText, ad, newKey);
    RootAtDepth(secret, keys, Latest(pos));
    SlotRank(secret, keys, pos.r, m.messageNumber);
    OldRootOpens(Decrypt(x, k, kText, ad, newKey).0, m, SlotKey(secret, keys, pos.r, m.messageNumber), ad, plaintext,
                 newKey2);
  }

  /** What closing the receiving chain leaves in a slot of it. */
  lemma ClosedSlot(x: Session, secret: Key, keys: seq<nat>, lens: seq<nat>, pos: Pos, len: nat, n: nat)
    requires Stays(x, secret, keys, lens, pos) && Distinct(keys) && pos.r >= 1
    ensures var x', slot := CloseReceivingChain(x, len), (x.peer, n);
            && (slot in x'.skipped <==> slot in x.skipped || (x.recvCount <= n < len && RoomAt(x, n)))
            && (slot in x'.skipped ==> x'.skipped[slot] == SlotKey(secret, keys, pos.r, n))
  {
    var x' := AdvanceTo(x, len);
    assert (x.peer, n) == SlotName(keys, pos.r, n) && x' == CloseReceivingChain(x, len);
    AdvancePlaced(x, secret, keys, lens, pos, len);
    AdvanceExact(x, len);
    if (x.peer, n) in x'.skipped {
      CachedKey(x', secret, keys, pos.r, pos.r, n);
    }
  }

  /** A message of a third chain: only the cache opens it. */
  lemma ElsewhereOpens(x: Session, secret: Key, keys: seq<nat>, lens: seq<nat>, pos: Pos, c: nat, k: Header,
                       kText: Ciphertext, m: Header, ad: Bytes, plaintext: Bytes, newKey: nat, newKey2: nat)
    requires Stays(x, secret, keys, lens, pos) && Distinct(keys) && 1 <= c < |keys| && c <= Latest(pos) + 2
    requires NeedsRatchet(x, k) && m.dhPub == Some(Pub(keys[c])) && m.dhPub != x.peer && m.dhPub != k.dhPub
    ensures Decrypt(Decrypt(x, k, kText, ad, newKey).0, m,
                    SealedFor(SlotKey(secret, keys, c, m.messageNumber), m.messageNumber, ad, plaintext), ad, newKey2).1
            == if Cached(x, m) then Success(plaintext) else Failure(DecryptionFailed)
  {
    AfterRatchet(x, k, kText, ad, newKey);
    CloseOthers(x, k.previousChainLen, m.dhPub);
    FinishOthers(DhPhase(x, k, newKey), k, kText, ad, m.dhPub);
    CachedIsSlotKey(x, secret, keys, lens, pos, c, m);
    RootAtDepth(secret, keys, Latest(pos));
    SlotRank(secret, keys, c, m.messageNumber);
    OldRootOpens(Decrypt(x, k, kText, ad, newKey).0, m, SlotKey(secret, keys, c, m.messageNumber), ad, plaintext,
                 newKey2);
  }

  lemma CachedIsSlotKey(x: Session, secret: Key, keys: seq<nat>, lens: seq<nat>, pos: Pos, c: nat, m: Header)
    requires Stays(x, secret, keys, lens, pos) && Distinct(keys) && 1 <= c < |keys| && m.dhPub == Some(Pub(keys[c]))
    ensures Cached(x, m) ==>
              c <= pos.r && x.skipped[(m.dhPub, m.messageNumber)] == SlotKey(secret, keys, c, m.messageNumber)
  {
    if Cached(x, m) {
      var d :| IsSlot(x, secret, keys, pos.r, (m.dhPub, m.messageNumber), d);
    }
  }

  /** A delivery on the receiver's chain, and then a message of an older one. */
  lemma OwnThenOldOpens(x: Session, secret: Key, keys: seq<nat>, lens: seq<nat>, pos: Pos, c: nat, k: Header,
                        kText: Ciphertext, m: Header, ad: Bytes, plaintext: Bytes, newKey2: nat)
    requires Stays(x, secret, keys, lens, pos) && Distinct(keys) && 1 <= c < pos.r
    requires k.dhPub == x.peer && m.dhPub == Some(Pub(keys[c]))
    ensures Decrypt(Finish(x, k, kText, ad).0, m,
                    SealedFor(SlotKey(secret, keys, c, m.messageNumber), m.messageNumber, ad, plaintext), ad, newKey2).1
            == if Cached(x, m) then Success(plaintext) else Failure(DecryptionFailed)
  {
    FinishOthers(x, k, kText, ad, m.dhPub);
    CachedIsSlotKey(x, secret, keys, lens, pos, c, m);
    RootAtDepth(secret, keys, Latest(pos));
    SlotRank(secret, keys, c, m.messageNumber);
    OldRootOpens(Finish(x, k, kText, ad).0, m, SlotKey(secret, keys, c, m.messageNumber), ad, plaintext, newKey2);
  }

  // ---------------------------------------------------------------- two messages of one old chain

  /** What skipping leaves in a slot of its chain: the chain's key if it reached the slot with room. */
  lemma {:induction false} SkipRangeValue(cache: Cache, pub: Option<Pub>, chainKey: Key, lo: nat, hi: nat, n: nat)
    ensures var after, slot := SkipRange(cache, pub, chainKey, lo, hi), (pub, n);
            if lo <= n < hi && |SkipRange(cache, pub, chainKey, lo, n)| < MAX_SKIPPED_KEYS
            then slot in after && after[slot] == Msg(KeyAt(chainKey, n - lo))
            else (slot in after <==> slot in cache) && (slot in after ==> after[slot] == cache[slot])
    decreases hi - lo
  {
    if lo < hi {
      SkipRangeValue(Remember(cache, (pub, lo), Msg(chainKey)), pub, Next(chainKey), lo + 1, hi, n);
      if n > lo {
        KeyAtNext(chainKey, n - lo - 1);
      }
    }
  }

  /** A stale delivery that is not cached overwrites this cached message of its chain. */
  ghost predicate Overwrites(x: Session, k: Header, m: Header, newKey: nat) {
    !Cached(x, k) && m.messageNumber < k.messageNumber && RoomAt(DhPhase(x, k, newKey), m.messageNumber)
  }

  /** After a stale delivery the receiver is on a chain that the sender does not know, and `m` of the same old
      chain opens exactly if it is another message, cached, and not overwritten. */
  lemma StaleChainOpens(x: Session, secret: Key, keys: seq<nat>, lens: seq<nat>, pos: Pos, c: nat, k: Header,
                        kPlain: Bytes, m: Header, ad: Bytes, plaintext: Bytes, newKey: nat, newKey2: nat)
    requires Stays(x, secret, keys, lens, pos) && Distinct(keys) && 1 <= c < pos.r
    requires k.dhPub == m.dhPub == Some(Pub(keys[c]))
    ensures var x' := Decrypt(x, k, SealedFor(SlotKey(secret, keys, c, k.messageNumber), k.messageNumber, ad, kPlain),
                              ad, newKey).0;
            Decrypt(x', m, SealedFor(SlotKey(secret, keys, c, m.messageNumber), m.messageNumber, ad, plaintext),
                    ad, newKey2).1
            == if k.messageNumber != m.messageNumber && Cached(x, m) && !Overwrites(x, k, m, newKey)
               then Success(plaintext) else Failure(DecryptionFailed)
  {
    RatchetRank(x, k, newKey);
    CloseOthers(x, k.previousChainLen, k.dhPub);
    CachedIsSlotKey(x, secret, keys, lens, pos, c, k);
    CachedIsSlotKey(x, secret, keys, lens, pos, c, m);
    RootAtDepth(secret, keys, Latest(pos));
    SlotRank(secret, keys, c, m.messageNumber);
    GarbledChainOpens(DhPhase(x, k, newKey), k, SlotKey(secret, keys, c, k.messageNumber), kPlain, m,
                      SlotKey(secret, keys, c, m.messageNumber), ad, plaintext, newKey2);
  }

  /** Two messages on a chain of another rank than their keys. */
  lemma GarbledChainOpens(x: Session, k: Header, kKey: Key, kPlain: Bytes, m: Header, mKey: Key, ad: Bytes,
                          plaintext: Bytes, newKey2: nat)
    requires x.recvKey.Chain? && x.recvCount == 0 && k.dhPub == m.dhPub == x.peer && x.peer.Some?
    requires kKey.Msg? && mKey.Msg? && ChainRank(mKey.chainKey) != ChainRank(x.recvKey)
    requires Cached(x, k) ==> x.skipped[(k.dhPub, k.messageNumber)] == kKey
    requires Cached(x, m) ==> x.skipped[(m.dhPub, m.messageNumber)] == mKey
    ensures var x' := Finish(x, k, SealedFor(kKey, k.messageNumber, ad, kPlain), ad).0;
            Decrypt(x', m, SealedFor(mKey, m.messageNumber, ad, plaintext), ad, newKey2).1
            == if && k.messageNumber != m.messageNumber && Cached(x, m)
                  && !(!Cached(x, k) && m.messageNumber < k.messageNumber && RoomAt(x, m.messageNumber))
               then Success(plaintext) else Failure(DecryptionFailed)
  {
    var x' := FinishedStale(x, k, kKey, m, ad, kPlain);
    assert DhPhase(x', m, newKey2) == x';
    if !(Cached(x', m) && x'.skipped[(m.dhPub, m.messageNumber)] == mKey) {
      WrongKeyFails(x', m, mKey, ad, plaintext);
    }
  }

  /** The state after the stale delivery: a cached key is used up; otherwise the chain moves past its number,
      and leaves keys of its own in the slots that it skips with room. */
  lemma FinishedStale(x: Session, k: Header, kKey: Key, m: Header, ad: Bytes, kPlain: Bytes) returns (x': Session)
    requires x.recvKey.Chain? && x.recvCount == 0 && k.dhPub == m.dhPub == x.peer
    requires Cached(x, k) ==> x.skipped[(k.dhPub, k.messageNumber)] == kKey && kKey.Msg?
    ensures x' == Finish(x, k, SealedFor(kKey, k.messageNumber, ad, kPlain), ad).0
    ensures x'.peer == x.peer && !x'.recvKey.NoKey? && ChainRank(x'.recvKey) == ChainRank(x.recvKey)
    ensures var slot := (m.dhPub, m.messageNumber);
            if Cached(x, k) then
              && (slot in x'.skipped <==> Cached(x, m) && m.messageNumber != k.messageNumber)
              && (slot in x'.skipped ==> x'.skipped[slot] == x.skipped[slot])
            else if m.messageNumber < k.messageNumber && RoomAt(x, m.messageNumber) then
              && slot in x'.skipped && x'.skipped[slot].Msg?
              && ChainRank(x'.skipped[slot].chainKey) == ChainRank(x.recvKey)
            else
              && (slot in x'.skipped <==> Cached(x, m))
              && (slot in x'.skipped ==> x'.skipped[slot] == x.skipped[slot])
  {
    x' := Finish(x, k, SealedFor(kKey, k.messageNumber, ad, kPlain), ad).0;
    if !Cached(x, k) {
      assert x.(skipped := x.skipped - {(k.dhPub, k.messageNumber)}) == x;
      TakenStale(x, k.messageNumber, m.messageNumber, x');
    }
  }

  lemma TakenStale(x: Session, i: nat, n: nat, x': Session)
    requires x.recvKey.Chain? && x.recvCount == 0 && x' == TakenAt(x, i)
    ensures x'.peer == x.peer && !x'.recvKey.NoKey? && ChainRank(x'.recvKey) == ChainRank(x.recvKey)
    ensures var slot := (x.peer, n);
            if n < i && RoomAt(x, n) then
              && slot in x'.skipped && x'.skipped[slot].Msg?
              && ChainRank(x'.skipped[slot].chainKey) == ChainRank(x.recvKey)
            else
              && (slot in x'.skipped <==> slot in x.skipped)
              && (slot in x'.skipped ==> x'.skipped[slot] == x.skipped[slot])
  {
    KeyAtRank(x.recvKey, i);
    KeyAtRank(x.recvKey, n);
    SkipRangeValue(x.skipped, x.peer, x.recvKey, 0, i, n);
  }

  // ---------------------------------------------------------------- every state of an orderly run

  /** Deliver message `k`, then message `m`: what the second delivery yields. */
  function DeliverBoth(net: Net, k: nat, m: nat, newKey: nat, newKey2: nat): Result<Bytes, Error>
    requires k < |net.log| && m < |net.log|
  {
    Delivery(Step(net, Deliver(k, newKey)), m, newKey2).1
  }

  /** Both messages are of one sender, and `m` is of the chain that its receiver is on. */
  ghost predicate OnChain(net: Net, k: nat, m: nat) {
    && k < |net.log| && m < |net.log| && net.log[k].sender == net.log[m].sender
    && net.log[m].msg.header.dhPub == net.Of(Receiver(net, m)).peer
  }

  /** On its own chain a delivery has no DH step. */
  lemma OwnChainStep(net: Net, t: Trace, k: nat, newKey: nat)
    requires CanDeliver(net, t, k) && Frame(net, t) && StaysAt(net, t, Receiver(net, k))
    requires t.chains[k] == t.At(Receiver(net, k)).r
    ensures Step(net, Deliver(k, newKey)) == Completed(net, k)
  {
    DhCases(net.Of(Receiver(net, k)), net.keys, t.At(Receiver(net, k)).r, t.chains[k], net.log[k].msg.header, newKey);
  }

  lemma OwnThenOwn(net: Net, t: Trace, k: nat, m: nat, newKey: nat, newKey2: nat)
    requires Core(net, t) && OnChain(net, k, m) && t.chains[m] == t.At(Receiver(net, m)).r == t.chains[k] >= 1
    requires newKey2 !in net.keys
    ensures DeliverBoth(net, k, m, newKey, newKey2)
            == if StillOpens(net.Of(Receiver(net, m)), net.log[k].msg.header, net.log[m].msg.header)
               then Success(net.log[m].plaintext) else Failure(DecryptionFailed)
  {
    EitherStays(net, t, Receiver(net, k));
    assert LogEntry(net, t, k);
    OwnChainStep(net, t, k, newKey);
    CompletedThenOwn(net, t, k, m, newKey2, Completed(net, k), net.Of(Receiver(net, k)));
  }

  /** On the receiver's chain: message `k` without a DH step, and then message `m`. */
  lemma CompletedThenOwn(net: Net, t: Trace, k: nat, m: nat, newKey2: nat, end: Net, x: Session)
    requires Core(net, t) && k < |net.log| && m < |net.log| && net.log[k].sender == net.log[m].sender
    requires t.chains[m] == t.chains[k] == t.At(Receiver(net, k)).r && newKey2 !in net.keys
    requires end == Completed(net, k) && x == net.Of(Receiver(net, k))
    ensures |end.log| == |net.log|
    ensures Delivery(end, m, newKey2).1
            == if StillOpens(x, net.log[k].msg.header, net.log[m].msg.header)
               then Success(net.log[m].plaintext) else Failure(DecryptionFailed)
  {
    var p := Receiver(net, k);
    EitherStays(net, t, p);
    assert LogEntry(net, t, k) && LogEntry(net, t, m);
    FinishedParty(net, t, k);
    OwnChainOpens(net.Of(p), t.secret, net.keys, t.lens, t.At(p), net.log[k].msg.header, net.log[m].msg.header);
    CompletedCore(net, t, k);
    CompletedAgain(net, t, k, m, newKey2);
  }

  /** After a delivery on the receiver's chain, another one there opens exactly if its key is available. */
  lemma CompletedAgain(net: Net, t: Trace, k: nat, m: nat, newKey: nat)
    requires k < |net.log| && m < |net.log| && net.log[k].sender == net.log[m].sender
    requires Core(Completed(net, k), t) && LogEntry(net, t, m) && newKey !in net.keys
    requires t.chains[m] == t.At(Receiver(net, m)).r
    ensures Delivery(Completed(net, k), m, newKey).1
            == if KeyAvailable(Finished(net, k).0, net.log[m].msg.header)
               then Success(net.log[m].plaintext) else Failure(DecryptionFailed)
  {
    var net' := Completed(net, k);
    assert LogEntry(net', t, m);
    DeliverCore(net', t, m, newKey);
  }

  lemma OtherThenOwn(net: Net, t: Trace, k: nat, m: nat, newKey: nat, newKey2: nat)
    requires Core(net, t) && OnChain(net, k, m) && t.chains[m] == t.At(Receiver(net, m)).r >= 1
    requires t.chains[k] != t.chains[m]
    ensures DeliverBoth(net, k, m, newKey, newKey2)
            == if StillOpens(net.Of(Receiver(net, m)), net.log[k].msg.header, net.log[m].msg.header)
               then Success(net.log[m].plaintext) else Failure(DecryptionFailed)
  {
    var p, e := Receiver(net, k), net.log[k].msg;
    EitherStays(net, t, p);
    assert LogEntry(net, t, k) && LogEntry(net, t, m);
    OtherChainOpens(net.Of(p), t.secret, net.keys, t.lens, t.At(p), e.header, e.ciphertext,
                    net.log[m].msg.header, net.ad, net.log[m].plaintext, newKey, newKey2);
  }

  /** A message of an older chain than the receiver's. */
  lemma StaleIs(net: Net, t: Trace, k: nat)
    requires k < |net.log| && LogOk(net, t) && Distinct(net.keys) && |net.keys| == |t.lens|
    requires GotOk(net, t, Receiver(net, k)) && StaysAt(net, t, Receiver(net, k)) && !NotStale(net, k)
    ensures 1 <= t.chains[k] < t.At(Receiver(net, k)).r
  {
    assert LogEntry(net, t, k);
    var j :| j in net.Got(Receiver(net, k)) && k < j < |net.log|
             && net.log[j].msg.header.dhPub != net.log[k].msg.header.dhPub;
    assert LogEntry(net, t, j) && InOrder(net, t, k, j);
  }

  lemma StaleOpensAt(net: Net, t: Trace, k: nat, newKey: nat)
    requires k < |net.log| == |t.chains| && LogEntry(net, t, k) && Distinct(net.keys)
             && StaysAt(net, t, Receiver(net, k))
    requires 1 <= t.chains[k] < t.At(Receiver(net, k)).r
    ensures Delivery(net, k, newKey).1
            == if Cached(net.Of(Receiver(net, k)), net.log[k].msg.header)
               then Success(net.log[k].plaintext) else Failure(DecryptionFailed)
  {
    var p, c, h := Receiver(net, k), t.chains[k], net.log[k].msg.header;
    var x := net.Of(p);
    assert (h.dhPub, h.messageNumber) == SlotName(net.keys, c, h.messageNumber);
    if Cached(x, h) {
      CachedKey(x, t.secret, net.keys, t.At(p).r, c, h.messageNumber);
    }
    RootAtDepth(t.secret, net.keys, Latest(t.At(p)));
    SlotRank(t.secret, net.keys, c, h.messageNumber);
    OldRootOpens(x, h, SlotKey(t.secret, net.keys, c, h.messageNumber), net.ad, net.log[k].plaintext, newKey);
  }

  /** A stale message itself decrypts exactly if its key is cached. */
  lemma StaleOpensExactly(secret: Key, spk: nat, first: nat, ad: Bytes, events: seq<Event>, k: nat, newKey: nat)
    requires spk != first && OrderlyRun(Begin(secret, spk, first, ad), events)
    requires k < |Reached(Begin(secret, spk, first, ad), events).log|
    requires !NotStale(Reached(Begin(secret, spk, first, ad), events), k)
    ensures var net := Reached(Begin(secret, spk, first, ad), events);
            Delivery(net, k, newKey).1
            == if Cached(net.Of(Receiver(net, k)), net.log[k].msg.header)
               then Success(net.log[k].plaintext) else Failure(DecryptionFailed)
  {
    BeginInv(secret, spk, first, ad);
    var t := ReachedInv(Begin(secret, spk, first, ad), Trace(secret, Pos(0, 1), Pos(-1, 0), [0, 0], []), events);
    var net := Reached(Begin(secret, spk, first, ad), events);
    EitherStays(net, t, Receiver(net, k));
    assert GotOk(net, t, Receiver(net, k)) && LogEntry(net, t, k);
    StaleIs(net, t, k);
    StaleOpensAt(net, t, k, newKey);
  }

  // ---------------------------------------------------------------- any message after any message

  /** After a delivery of message `k` the receiver opens message `m` of the same sender. On the chain that the
      receiver was on, see `StillOpens`. On another chain that is also the chain of `k`: as on an own chain if
      that is the next chain; if it is an old one, `m` must be cached, another message than `k`, and not
      overwritten by what `k` skips. Elsewhere, `m` must be cached, unless it is of the next chain and `k` was
      of the receiver's own. */
  ghost predicate OpensAfter(net: Net, k: nat, m: nat, newKey: nat)
    requires k < |net.log| && m < |net.log|
  {
    var x, hk, hm := net.Of(Receiver(net, k)), net.log[k].msg.header, net.log[m].msg.header;
    if hm.dhPub == x.peer then StillOpens(x, hk, hm)
    else if hk.dhPub == hm.dhPub then
      if NotStale(net, k) then StillOpens(DhPhase(x, hk, newKey), hk, hm)
      else hk.messageNumber != hm.messageNumber && Cached(x, hm) && !Overwrites(x, hk, hm, newKey)
    else Cached(x, hm) || (NotStale(net, k) && NotStale(net, m))
  }

  /** Where a message stands: on an old chain exactly if it is stale, and on the next one at most. */
  lemma Standing(net: Net, t: Trace, k: nat)
    requires Inv(net, t) && k < |net.log|
    ensures var r, c := t.At(Receiver(net, k)).r, t.chains[k];
            && 1 <= c < |net.keys| && c <= Latest(t.At(Receiver(net, k))) + 2
            && (NotStale(net, k) <==> c >= r) && (c >= r ==> c == r || c == r + 2)
            && net.log[k].msg.header.dhPub == Some(Pub(net.keys[c]))
  {
    var p := Receiver(net, k);
    EitherStays(net, t, p);
    assert LogEntry(net, t, k) && GotOk(net, t, p);
    if NotStale(net, k) {
      ChainOfDelivery(net, t, k);
    } else {
      StaleIs(net, t, k);
    }
  }

  lemma OwnThenOld(net: Net, t: Trace, k: nat, m: nat, newKey: nat, newKey2: nat)
    requires CanDeliver(net, t, k) && m < |net.log| && net.log[k].sender == net.log[m].sender && LogEntry(net, t, m)
    requires Frame(net, t) && StaysAt(net, t, Receiver(net, k))
    requires t.chains[m] < t.chains[k] == t.At(Receiver(net, k)).r
    ensures DeliverBoth(net, k, m, newKey, newKey2)
            == if Cached(net.Of(Receiver(net, k)), net.log[m].msg.header)
               then Success(net.log[m].plaintext) else Failure(DecryptionFailed)
  {
    var p, e := Receiver(net, k), net.log[k].msg;
    OwnChainStep(net, t, k, newKey);
    OwnThenOldOpens(net.Of(p), t.secret, net.keys, t.lens, t.At(p), t.chains[m], e.header, e.ciphertext,
                    net.log[m].msg.header, net.ad, net.log[m].plaintext, newKey2);
  }

  lemma OwnThenNext(net: Net, t: Trace, k: nat, m: nat, newKey: nat, newKey2: nat)
    requires Core(net, t) && CanDeliver(net, t, k) && m < |net.log| && net.log[k].sender == net.log[m].sender
    requires newKey2 !in net.keys && t.chains[m] == t.chains[k] + 2 && t.chains[k] == t.At(Receiver(net, k)).r
    ensures DeliverBoth(net, k, m, newKey, newKey2) == Success(net.log[m].plaintext)
  {
    EitherStays(net, t, Receiver(net, k));
    assert LogEntry(net, t, m);
    OwnChainStep(net, t, k, newKey);
    CompletedCore(net, t, k);
    NextDelivers(Completed(net, k), t, m, newKey2);
  }

  lemma NextDelivers(net: Net, t: Trace, m: nat, newKey: nat)
    requires Core(net, t) && m < |net.log| && newKey !in net.keys && t.chains[m] == t.At(Receiver(net, m)).r + 2
    ensures Delivery(net, m, newKey).1 == Success(net.log[m].plaintext)
  {
    EitherStays(net, t, Receiver(net, m));
    assert LogEntry(net, t, m);
    DeliverCore(net, t, m, newKey);
  }

  lemma KeysKept(keys: seq<nat>, keys': seq<nat>, newKey: nat)
    requires keys' == keys || keys' == keys + [newKey]
    ensures forall other: nat | other in keys' :: other in keys || other == newKey
  {
  }

  /** The state after the DH step of a delivery of the next chain, and the state after the delivery. */
  lemma NextSynced(net: Net, t: Trace, k: nat, newKey: nat) returns (net': Net, t': Trace, end: Net, x: Session)
    requires Core(net, t) && CanDeliver(net, t, k) && newKey !in net.keys
    ensures Core(net', t') && net'.log == net.log && t'.chains == t.chains
    ensures forall other: nat | other in net'.keys :: other in net.keys || other == newKey
    ensures Receiver(net', k) == Receiver(net, k) && t.chains[k] == t'.At(Receiver(net', k)).r
    ensures end == Step(net, Deliver(k, newKey)) == Completed(net', k)
    ensures x == net'.Of(Receiver(net, k)) == DhPhase(net.Of(Receiver(net, k)), net.log[k].msg.header, newKey)
  {
    net', t' := SyncedForLedger(net, t, k, newKey);
    SyncedCore(net, t, k, newKey);
    SyncedSame(net, t, k, newKey);
    assert SyncParts(net, t, net', t', k, newKey);
    KeysKept(net.keys, net'.keys, newKey);
    end, x := Completed(net', k), net'.Of(Receiver(net, k));
  }

  /** The message of the next chain leaves the receiver in state `end`, after the DH step to state `x`. */
  lemma NextThenSame(net: Net, t: Trace, k: nat, m: nat, newKey: nat, newKey2: nat) returns (end: Net, x: Session)
    requires Core(net, t) && CanDeliver(net, t, k) && m < |net.log| && net.log[k].sender == net.log[m].sender
    requires newKey !in net.keys && newKey2 !in net.keys && newKey != newKey2
    requires t.chains[m] == t.chains[k]
    ensures end == Step(net, Deliver(k, newKey)) && |end.log| == |net.log|
    ensures x == DhPhase(net.Of(Receiver(net, k)), net.log[k].msg.header, newKey)
    ensures Delivery(end, m, newKey2).1
            == if StillOpens(x, net.log[k].msg.header, net.log[m].msg.header)
               then Success(net.log[m].plaintext) else Failure(DecryptionFailed)
  {
    var net', t';
    net', t', end, x := NextSynced(net, t, k, newKey);
    CompletedThenOwn(net', t', k, m, newKey2, end, x);
  }

  lemma OtherThenOther(net: Net, t: Trace, k: nat, m: nat, newKey: nat, newKey2: nat)
    requires k < |net.log| == |t.chains| && m < |net.log| && net.log[k].sender == net.log[m].sender
    requires LogEntry(net, t, k) && LogEntry(net, t, m) && StaysAt(net, t, Receiver(net, k)) && Distinct(net.keys)
    requires var p := Receiver(net, k);
             && t.At(p).r >= 0 && t.chains[k] != t.At(p).r && t.chains[m] != t.At(p).r && t.chains[m] != t.chains[k]
             && t.chains[m] <= Latest(t.At(p)) + 2
    ensures DeliverBoth(net, k, m, newKey, newKey2)
            == if Cached(net.Of(Receiver(net, k)), net.log[m].msg.header)
               then Success(net.log[m].plaintext) else Failure(DecryptionFailed)
  {
    var p, e := Receiver(net, k), net.log[k].msg;
    ElsewhereOpens(net.Of(p), t.secret, net.keys, t.lens, t.At(p), t.chains[m], e.header, e.ciphertext,
                   net.log[m].msg.header, net.ad, net.log[m].plaintext, newKey, newKey2);
  }

  lemma StaleThenSame(net: Net, t: Trace, k: nat, m: nat, newKey: nat, newKey2: nat)
    requires Core(net, t) && k < |net.log| && m < |net.log| && net.log[k].sender == net.log[m].sender
    requires t.chains[m] == t.chains[k] < t.At(Receiver(net, k)).r
    ensures var x, hk, hm := net.Of(Receiver(net, k)), net.log[k].msg.header, net.log[m].msg.header;
            DeliverBoth(net, k, m, newKey, newKey2)
            == if hk.messageNumber != hm.messageNumber && Cached(x, hm) && !Overwrites(x, hk, hm, newKey)
               then Success(net.log[m].plaintext) else Failure(DecryptionFailed)
  {
    var p := Receiver(net, k);
    EitherStays(net, t, p);
    assert LogEntry(net, t, k) && LogEntry(net, t, m);
    StaleChainOpens(net.Of(p), t.secret, net.keys, t.lens, t.At(p), t.chains[k], net.log[k].msg.header,
                    net.log[k].plaintext, net.log[m].msg.header, net.ad, net.log[m].plaintext, newKey, newKey2);
  }

  lemma AnyAfterAny(net: Net, t: Trace, k: nat, m: nat, newKey: nat, newKey2: nat)
    requires Inv(net, t) && k < |net.log| && m < |net.log| && net.log[k].sender == net.log[m].sender
    requires newKey !in net.keys && newKey2 !in net.keys && newKey != newKey2
    ensures DeliverBoth(net, k, m, newKey, newKey2)
            == if OpensAfter(net, k, m, newKey) then Success(net.log[m].plaintext) else Failure(DecryptionFailed)
  {
    var p := Receiver(net, k);
    EitherStays(net, t, p);
    Standing(net, t, k);
    Standing(net, t, m);
    var r, c, d := t.At(p).r, t.chains[k], t.chains[m];
    if d == r {
      if c == r {
        OwnThenOwn(net, t, k, m, newKey, newKey2);
      } else {
        OtherThenOwn(net, t, k, m, newKey, newKey2);
      }
    } else if c == r {
      assert LogEntry(net, t, k) && LogEntry(net, t, m);
      if d < r {
        OwnThenOld(net, t, k, m, newKey, newKey2);
      } else {
        OwnThenNext(net, t, k, m, newKey, newKey2);
      }
      CachedIsSlotKey(net.Of(p), t.secret, net.keys, t.lens, t.At(p), d, net.log[m].msg.header);
    } else if c == d {
      if c > r {
        assert LogEntry(net, t, k);
        var _, _ := NextThenSame(net, t, k, m, newKey, newKey2);
      } else {
        StaleThenSame(net, t, k, m, newKey, newKey2);
      }
    } else {
      assert LogEntry(net, t, k) && LogEntry(net, t, m);
      OtherThenOther(net, t, k, m, newKey, newKey2);
    }
  }

  /** In every state of an orderly run, whatever message `k` of a sender is delivered, stale or repeated or
      next: every message `m` of that sender then decrypts exactly if `OpensAfter`, and fails otherwise. */
  lemma StaleDerailsExactly(secret: Key, spk: nat, first: nat, ad: Bytes, events: seq<Event>,
                            k: nat, m: nat, newKey: nat, newKey2: nat)
    requires spk != first && OrderlyRun(Begin(secret, spk, first, ad), events)
    requires var net := Reached(Begin(secret, spk, first, ad), events);
             && k < |net.log| && m < |net.log| && net.log[k].sender == net.log[m].sender
             && newKey !in net.keys && newKey2 !in net.keys && newKey != newKey2
    ensures var net := Reached(Begin(secret, spk, first, ad), events);
            DeliverBoth(net, k, m, newKey, newKey2)
            == if OpensAfter(net, k, m, newKey) then Success(net.log[m].plaintext) else Failure(DecryptionFailed)
  {
    BeginInv(secret, spk, first, ad);
    var t := ReachedInv(Begin(secret, spk, first, ad), Trace(secret, Pos(0, 1), Pos(-1, 0), [0, 0], []), events);
    AnyAfterAny(Reached(Begin(secret, spk, first, ad), events), t, k, m, newKey, newKey2);
  }
}
