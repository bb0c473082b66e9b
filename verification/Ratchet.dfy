/** One Double Ratchet session: the functions that specify each operation, and the class that
    performs them in place. */
module Ratchet {
  import opened Wrappers
  import opened Crypto

  const MAX_SKIPPED_KEYS: nat := 256

  datatype Header = Header(dhPub: Option<Pub>, previousChainLen: nat, messageNumber: nat)

  datatype EncryptedMessage = EncryptedMessage(header: Header, ciphertext: Ciphertext, nonce: Nonce)

  datatype Error = NoReceivingKey | ReceivingChainNotInitialized | DecryptionFailed

  /** A key of the skipped-key cache: a ratchet public key (or nil) and a message number. */
  type Slot = (Option<Pub>, nat)

  type Cache = map<Slot, Key>

  /** The fields of a session as one value. */
  datatype Session = Session(
    priv: nat, pub: Pub, peer: Option<Pub>,
    root: Key,
    sendKey: Key, sendCount: nat, previousLen: nat,
    recvKey: Key, recvCount: nat,
    skipped: Cache)

  // ---------------------------------------------------------------- chains and cache

  /** A chain key advanced `n` times. */
  function KeyAt(chainKey: Key, n: nat): Key {
    if n == 0 then chainKey else Next(KeyAt(chainKey, n - 1))
  }

  lemma KeyAtNext(chainKey: Key, n: nat)
    ensures KeyAt(Next(chainKey), n) == KeyAt(chainKey, n + 1)
  {
  }

  lemma KeyAtSum(chainKey: Key, m: nat, n: nat)
    ensures KeyAt(KeyAt(chainKey, m), n) == KeyAt(chainKey, m + n)
  {
  }

  /** A full cache drops the key. */
  function Remember(cache: Cache, slot: Slot, key: Key): Cache {
    if |cache| < MAX_SKIPPED_KEYS then cache[slot := key] else cache
  }

  /** The cache after the message keys `lo .. hi` of a chain were skipped. */
  function SkipRange(cache: Cache, pub: Option<Pub>, chainKey: Key, lo: nat, hi: nat): Cache
    decreases hi - lo
  {
    if lo >= hi then cache
    else SkipRange(Remember(cache, (pub, lo), Msg(chainKey)), pub, Next(chainKey), lo + 1, hi)
  }

  /** The receiving chain moved forward to message number `n`; it never moves back. */
  function AdvanceTo(s: Session, n: nat): Session {
    if n <= s.recvCount then s
    else s.(recvKey := KeyAt(s.recvKey, n - s.recvCount), recvCount := n,
            skipped := SkipRange(s.skipped, s.peer, s.recvKey, s.recvCount, n))
  }

  // ---------------------------------------------------------------- ratchet steps

  function InitiatorSession(sharedSecret: Key, remoteSPK: Pub, newKey: nat): Session {
    var (root, chain) := KdfRk(sharedSecret, DH(newKey, remoteSPK));
    Session(newKey, Pub(newKey), Some(remoteSPK), root, chain, 0, 0, NoKey, 0, map[])
  }

  function ResponderSession(sharedSecret: Key, localSPK: nat): Session {
    Session(localSPK, Pub(localSPK), None, sharedSecret, NoKey, 0, 0, NoKey, 0, map[])
  }

  /** A new sending chain under the key pair `newKey`. */
  function SendRatchet(s: Session, newKey: nat): Session
    requires s.peer.Some?
  {
    var (root, chain) := KdfRk(s.root, DH(newKey, s.peer.value));
    s.(previousLen := s.sendCount, priv := newKey, pub := Pub(newKey), root := root, sendKey := chain, sendCount := 0)
  }

  function OpenReceivingChain(s: Session, pub: Pub): Session {
    var (root, chain) := KdfRk(s.root, DH(s.priv, pub));
    s.(peer := Some(pub), root := root, recvKey := chain, recvCount := 0)
  }

  /** The rest of the old receiving chain is skipped first, when there is one. */
  function CloseReceivingChain(s: Session, previousChainLen: nat): Session {
    if s.recvKey.NoKey? then s else AdvanceTo(s, previousChainLen)
  }

  function ReceiveRatchet(s: Session, previousChainLen: nat, pub: Pub, newKey: nat): Session {
    SendRatchet(OpenReceivingChain(CloseReceivingChain(s, previousChainLen), pub), newKey)
  }

  /** A header with another ratchet key than the last one makes the receiver generate a key pair. */
  predicate NeedsRatchet(s: Session, header: Header) {
    header.dhPub.Some? && s.peer.Some? && header.dhPub != s.peer
  }

  /** What `Decrypt` does before it looks at the message number. */
  function DhPhase(s: Session, header: Header, newKey: nat): Session {
    if NeedsRatchet(s, header) then ReceiveRatchet(s, header.previousChainLen, header.dhPub.value, newKey)
    else if header.dhPub.Some? && s.peer.None? then OpenReceivingChain(s, header.dhPub.value)
    else s
  }

  // ---------------------------------------------------------------- encrypt and decrypt

  function Encrypted(s: Session, plaintext: Bytes, associatedData: Bytes): (Session, EncryptedMessage) {
    var (chain, key) := KdfCk(s.sendKey);
    var nonce := DeriveNonce(key, s.sendCount);
    (s.(sendKey := chain, sendCount := s.sendCount + 1),
     EncryptedMessage(Header(Some(s.pub), s.previousLen, s.sendCount),
                      Sealed(key, nonce, associatedData, plaintext), nonce))
  }

  function Encrypt(s: Session, plaintext: Bytes, associatedData: Bytes, newKey: nat)
    : Result<(Session, EncryptedMessage), Error>
  {
    if s.sendKey.NoKey? then
      if s.peer.None? then Failure(NoReceivingKey)
      else Success(Encrypted(SendRatchet(s, newKey), plaintext, associatedData))
    else Success(Encrypted(s, plaintext, associatedData))
  }

  function Lookup(cache: Cache, slot: Slot): Key {
    if slot in cache then cache[slot] else NoKey
  }

  function ResultOf(plaintext: Option<Bytes>): Result<Bytes, Error> {
    if plaintext.Some? then Success(plaintext.value) else Failure(DecryptionFailed)
  }

  /** Decryption once the receiving chain is the header's: a cached key, or the chain itself. */
  function Finish(s: Session, header: Header, ciphertext: Ciphertext, associatedData: Bytes)
    : (Session, Result<Bytes, Error>)
  {
    var slot := (header.dhPub, header.messageNumber);
    var cached := Lookup(s.skipped, slot);
    var unsealed := DecryptWithKey(cached, header.messageNumber, ciphertext, associatedData);
    var s1 := s.(skipped := s.skipped - {slot});
    if cached != NoKey && unsealed.Some? then (s1, ResultOf(unsealed))
    else ChainDecrypt(s1, header, ciphertext, associatedData)
  }

  /** Decryption with the chain key of the header's message number. */
  function ChainDecrypt(s: Session, header: Header, ciphertext: Ciphertext, associatedData: Bytes)
    : (Session, Result<Bytes, Error>)
  {
    if header.messageNumber > s.recvCount && s.recvKey.NoKey? then (s, Failure(ReceivingChainNotInitialized))
    else
      var s2 := AdvanceTo(s, header.messageNumber);
      var (chain, key) := KdfCk(s2.recvKey);
      (s2.(recvKey := chain, recvCount := s2.recvCount + 1),
       ResultOf(DecryptWithKey(key, header.messageNumber, ciphertext, associatedData)))
  }

  /** The session changes even when decryption fails: nothing is rolled back. */
  function Decrypt(s: Session, header: Header, ciphertext: Ciphertext, associatedData: Bytes, newKey: nat)
    : (Session, Result<Bytes, Error>)
  {
    Finish(DhPhase(s, header, newKey), header, ciphertext, associatedData)
  }

  // ---------------------------------------------------------------- properties of skipping

  /** A skipped range only adds or overwrites its own slots, with the right keys. */
  lemma {:induction false} SkipRangeEntries(cache: Cache, pub: Option<Pub>, base: Key, lo: nat, hi: nat)
    requires lo <= hi
    ensures cache.Keys <= SkipRange(cache, pub, KeyAt(base, lo), lo, hi).Keys
    ensures forall k: Slot | k in SkipRange(cache, pub, KeyAt(base, lo), lo, hi) ::
              SkippedEntry(cache, SkipRange(cache, pub, KeyAt(base, lo), lo, hi), pub, base, lo, hi, k)
    decreases hi - lo
  {
    if lo < hi {
      var cache' := Remember(cache, (pub, lo), Msg(KeyAt(base, lo)));
      SkipRangeEntries(cache', pub, base, lo + 1, hi);
      var after := SkipRange(cache', pub, KeyAt(base, lo + 1), lo + 1, hi);
      assert after == SkipRange(cache, pub, KeyAt(base, lo), lo, hi);
      forall k: Slot | k in after
        ensures SkippedEntry(cache, after, pub, base, lo, hi, k)
      {
        assert SkippedEntry(cache', after, pub, base, lo + 1, hi, k);
      }
    }
  }

  ghost predicate SkippedEntry(cache: Cache, after: Cache, pub: Option<Pub>, base: Key, lo: nat, hi: nat, k: Slot)
    requires k in after
  {
    || (k in cache && after[k] == cache[k])
    || (k.0 == pub && lo <= k.1 < hi && after[k] == Msg(KeyAt(base, k.1)))
  }

  /** With room for the whole range, nothing of it is dropped. */
  lemma {:induction false} SkipRangeRoom(cache: Cache, pub: Option<Pub>, chainKey: Key, lo: nat, hi: nat)
    requires lo <= hi && |cache| + (hi - lo) <= MAX_SKIPPED_KEYS
    ensures |SkipRange(cache, pub, chainKey, lo, hi)| <= |cache| + (hi - lo)
    ensures forall i | lo <= i < hi :: (pub, i) in SkipRange(cache, pub, chainKey, lo, hi)
    decreases hi - lo
  {
    if lo < hi {
      var cache' := Remember(cache, (pub, lo), Msg(chainKey));
      RememberSize(cache, (pub, lo), Msg(chainKey));
      SkipRangeRoom(cache', pub, Next(chainKey), lo + 1, hi);
      EarlierSlotKept(cache', pub, Next(chainKey), lo + 1, hi, (pub, lo));
    }
  }

  lemma RememberSize(cache: Cache, slot: Slot, key: Key)
    ensures |Remember(cache, slot, key)| <= |cache| + 1
    ensures |cache| <= MAX_SKIPPED_KEYS ==> |Remember(cache, slot, key)| <= MAX_SKIPPED_KEYS
  {
    assert |cache[slot := key]| <= |cache| + 1 by {
      assert cache[slot := key].Keys == cache.Keys + {slot};
      assert |cache[slot := key].Keys| == |cache[slot := key]|;
    }
  }

  /** Caches that agree on the slots under the public key. */
  ghost predicate SameSlots(cache: Cache, cache': Cache, pub: Option<Pub>) {
    forall i: nat :: ((pub, i) in cache' <==> (pub, i) in cache)
        && ((pub, i) in cache ==> cache'[(pub, i)] == cache[(pub, i)])
  }

  /** Skipping along a chain leaves the slots of the others alone. */
  lemma {:induction false} SkipRangeOthers(cache: Cache, pub: Option<Pub>, chainKey: Key, lo: nat, hi: nat,
                                           other: Option<Pub>)
    requires other != pub
    ensures SameSlots(cache, SkipRange(cache, pub, chainKey, lo, hi), other)
    decreases hi - lo
  {
    if lo < hi {
      SkipRangeOthers(Remember(cache, (pub, lo), Msg(chainKey)), pub, Next(chainKey), lo + 1, hi, other);
    }
  }

  lemma CloseOthers(x: Session, n: nat, other: Option<Pub>)
    requires other != x.peer
    ensures SameSlots(x.skipped, CloseReceivingChain(x, n).skipped, other)
  {
    SkipRangeOthers(x.skipped, x.peer, x.recvKey, x.recvCount, n, other);
  }

  /** Every slot of the range holds its key, and the cache has room for new keys. */
  ghost predicate Settled(cache: Cache, pub: Option<Pub>, chainKey: Key, lo: nat, hi: nat)
    decreases hi - lo
  {
    || lo >= hi
    || |cache| >= MAX_SKIPPED_KEYS
    || ((pub, lo) in cache && cache[(pub, lo)] == Msg(chainKey)
        && Settled(cache, pub, Next(chainKey), lo + 1, hi))
  }

  /** Once a slot of the range holds its key, skipping later slots leaves it alone. */
  lemma {:induction false} EarlierSlotKept(cache: Cache, pub: Option<Pub>, chainKey: Key, lo: nat, hi: nat, slot: Slot)
    requires slot in cache && slot.1 < lo
    ensures var after := SkipRange(cache, pub, chainKey, lo, hi);
            slot in after && after[slot] == cache[slot]
    decreases hi - lo
  {
    if lo < hi {
      EarlierSlotKept(Remember(cache, (pub, lo), Msg(chainKey)), pub, Next(chainKey), lo + 1, hi, slot);
    }
  }

  lemma {:induction false} FullStaysFull(cache: Cache, pub: Option<Pub>, chainKey: Key, lo: nat, hi: nat)
    requires |cache| >= MAX_SKIPPED_KEYS
    ensures SkipRange(cache, pub, chainKey, lo, hi) == cache
    decreases hi - lo
  {
    if lo < hi {
      FullStaysFull(cache, pub, Next(chainKey), lo + 1, hi);
    }
  }

  lemma {:induction false} SkipSettles(cache: Cache, pub: Option<Pub>, chainKey: Key, lo: nat, hi: nat)
    ensures Settled(SkipRange(cache, pub, chainKey, lo, hi), pub, chainKey, lo, hi)
    decreases hi - lo
  {
    if |cache| >= MAX_SKIPPED_KEYS {
      FullStaysFull(cache, pub, chainKey, lo, hi);
    } else if lo < hi {
      var cache' := cache[(pub, lo) := Msg(chainKey)];
      SkipSettles(cache', pub, Next(chainKey), lo + 1, hi);
      EarlierSlotKept(cache', pub, Next(chainKey), lo + 1, hi, (pub, lo));
    }
  }

  lemma {:induction false} SettledUnchanged(cache: Cache, pub: Option<Pub>, chainKey: Key, lo: nat, hi: nat)
    requires Settled(cache, pub, chainKey, lo, hi)
    ensures SkipRange(cache, pub, chainKey, lo, hi) == cache
    decreases hi - lo
  {
    if |cache| >= MAX_SKIPPED_KEYS {
      FullStaysFull(cache, pub, chainKey, lo, hi);
    } else if lo < hi {
      assert cache[(pub, lo) := Msg(chainKey)] == cache;
      SettledUnchanged(cache, pub, Next(chainKey), lo + 1, hi);
    }
  }

  /** `skipMessages` caches the range, `advanceReceivingChain` then caches it again: the second
      pass changes nothing, whatever the cache held and wherever the cap was reached. */
  lemma TwoPassesAreOne(cache: Cache, pub: Option<Pub>, chainKey: Key, lo: nat, hi: nat)
    ensures var once := SkipRange(cache, pub, chainKey, lo, hi);
            SkipRange(once, pub, chainKey, lo, hi) == once
  {
    SkipSettles(cache, pub, chainKey, lo, hi);
    SettledUnchanged(SkipRange(cache, pub, chainKey, lo, hi), pub, chainKey, lo, hi);
  }

  /** No call, with any header and any ciphertext, takes the cache over its cap. */
  lemma CacheBounded(s: Session, header: Header, ciphertext: Ciphertext, associatedData: Bytes, newKey: nat)
    requires |s.skipped| <= MAX_SKIPPED_KEYS
    ensures |Decrypt(s, header, ciphertext, associatedData, newKey).0.skipped| <= MAX_SKIPPED_KEYS
  {
    AdvanceBounded(s, header.previousChainLen);
    FinishBounded(DhPhase(s, header, newKey), header, ciphertext, associatedData);
  }

  lemma FinishBounded(s: Session, header: Header, ciphertext: Ciphertext, associatedData: Bytes)
    requires |s.skipped| <= MAX_SKIPPED_KEYS
    ensures |Finish(s, header, ciphertext, associatedData).0.skipped| <= MAX_SKIPPED_KEYS
  {
    var slot := (header.dhPub, header.messageNumber);
    RemovalSize(s.skipped, slot);
    ChainBounded(s.(skipped := s.skipped - {slot}), header, ciphertext, associatedData);
  }

  lemma ChainBounded(s: Session, header: Header, ciphertext: Ciphertext, associatedData: Bytes)
    requires |s.skipped| <= MAX_SKIPPED_KEYS
    ensures |ChainDecrypt(s, header, ciphertext, associatedData).0.skipped| <= MAX_SKIPPED_KEYS
  {
    AdvanceBounded(s, header.messageNumber);
  }

  lemma RemovalSize(cache: Cache, slot: Slot)
    ensures |cache - {slot}| <= |cache|
  {
    assert (cache - {slot}).Keys <= cache.Keys;
    SubsetSize((cache - {slot}).Keys, cache.Keys);
  }

  lemma AdvanceBounded(s: Session, n: nat)
    requires |s.skipped| <= MAX_SKIPPED_KEYS
    ensures |AdvanceTo(s, n).skipped| <= MAX_SKIPPED_KEYS
  {
    if s.recvCount < n {
      SkipRangeBounded(s.skipped, s.peer, s.recvKey, s.recvCount, n);
    }
  }

  lemma {:induction false} SkipRangeBounded(cache: Cache, pub: Option<Pub>, chainKey: Key, lo: nat, hi: nat)
    requires |cache| <= MAX_SKIPPED_KEYS
    ensures |SkipRange(cache, pub, chainKey, lo, hi)| <= MAX_SKIPPED_KEYS
    decreases hi - lo
  {
    if lo < hi {
      RememberSize(cache, (pub, lo), Msg(chainKey));
      SkipRangeBounded(Remember(cache, (pub, lo), Msg(chainKey)), pub, Next(chainKey), lo + 1, hi);
    }
  }

  lemma SubsetSize<T>(a: set<T>, b: set<T>)
    requires a <= b
    ensures |a| <= |b|
  {
    assert b == a + (b - a);
  }

  // ---------------------------------------------------------------- the session object

  class DoubleRatchetState {
    var dhSendingKeyPriv: nat
    var dhSendingKeyPub: Pub
    var dhReceivingKeyPub: Option<Pub>
    var rootKey: Key
    var sendingChainKey: Key
    var sendingChainCount: nat
    var previousSendingChainLen: nat
    var receivingChainKey: Key
    var receivingChainCount: nat
    var skippedKeys: map<Slot, Key>

    ghost function View(): Session
      reads this
    {
      Session(dhSendingKeyPriv, dhSendingKeyPub, dhReceivingKeyPub, rootKey,
              sendingChainKey, sendingChainCount, previousSendingChainLen,
              receivingChainKey, receivingChainCount, skippedKeys)
    }

    constructor Initiator(sharedSecret: Key, remoteSPK: Pub, newKey: nat)
      ensures View() == InitiatorSession(sharedSecret, remoteSPK, newKey)
    {
      var dhOutput := DH(newKey, remoteSPK);
      var (newRootKey, newChainKey) := KdfRk(sharedSecret, dhOutput);
      dhSendingKeyPriv, dhSendingKeyPub := newKey, Pub(newKey);
      dhReceivingKeyPub := Some(remoteSPK);
      rootKey := newRootKey;
      sendingChainKey, sendingChainCount, previousSendingChainLen := newChainKey, 0, 0;
      receivingChainKey, receivingChainCount := NoKey, 0;
      skippedKeys := map[];
    }

    constructor Responder(sharedSecret: Key, localSPK: nat)
      ensures View() == ResponderSession(sharedSecret, localSPK)
    {
      dhSendingKeyPriv, dhSendingKeyPub := localSPK, Pub(localSPK);
      dhReceivingKeyPub := None;
      rootKey := sharedSecret;
      sendingChainKey, sendingChainCount, previousSendingChainLen := NoKey, 0, 0;
      receivingChainKey, receivingChainCount := NoKey, 0;
      skippedKeys := map[];
    }

    /** `newKey` is the key pair that the random source yields if one is generated. */
    method EncryptMessage(plaintext: Bytes, associatedData: Bytes, newKey: nat)
      returns (r: Result<EncryptedMessage, Error>)
      modifies this
      ensures match Encrypt(old(View()), plaintext, associatedData, newKey)
              case Success(p) => View() == p.0 && r == Success(p.1)
              case Failure(e) => View() == old(View()) && r == Failure(e)
    {
      if sendingChainKey.NoKey? {
        var ok := DhRatchetSend(newKey);
        if !ok {
          return Failure(NoReceivingKey);
        }
      }
      var (newChainKey, messageKey) := KdfCk(sendingChainKey);
      sendingChainKey := newChainKey;
      var nonce := DeriveNonce(messageKey, sendingChainCount);
      var ciphertext := Sealed(messageKey, nonce, associatedData, plaintext);
      var header := Header(Some(dhSendingKeyPub), previousSendingChainLen, sendingChainCount);
      sendingChainCount := sendingChainCount + 1;
      return Success(EncryptedMessage(header, ciphertext, nonce));
    }

    method DecryptMessage(header: Header, ciphertext: Ciphertext, associatedData: Bytes, newKey: nat)
      returns (r: Result<Bytes, Error>)
      modifies this
      ensures (View(), r) == Decrypt(old(View()), header, ciphertext, associatedData, newKey)
    {
      if header.dhPub.Some? && dhReceivingKeyPub.Some? {
        if header.dhPub != dhReceivingKeyPub {
          DhRatchetReceive(header, newKey);
        }
      } else if header.dhPub.Some? && dhReceivingKeyPub.None? {
        dhReceivingKeyPub := header.dhPub;
        var dhOutput := DH(dhSendingKeyPriv, header.dhPub.value);
        var (newRootKey, newChainKey) := KdfRk(rootKey, dhOutput);
        rootKey := newRootKey;
        receivingChainKey := newChainKey;
        receivingChainCount := 0;
      }
      r := DecryptInChain(header, ciphertext, associatedData);
    }

    /** The part of decryption that follows the DH step. */
    method DecryptInChain(header: Header, ciphertext: Ciphertext, associatedData: Bytes)
      returns (r: Result<Bytes, Error>)
      modifies this
      ensures (View(), r) == Finish(old(View()), header, ciphertext, associatedData)
    {
      var skippedKey := GetSkippedKey(header);
      if skippedKey != NoKey {
        var plaintext := DecryptWithKey(skippedKey, header.messageNumber, ciphertext, associatedData);
        if plaintext.Some? {
          return Success(plaintext.value);
        }
      }
      r := DecryptWithChain(header, ciphertext, associatedData);
    }

    method DecryptWithChain(header: Header, ciphertext: Ciphertext, associatedData: Bytes)
      returns (r: Result<Bytes, Error>)
      modifies this
      ensures (View(), r) == ChainDecrypt(old(View()), header, ciphertext, associatedData)
    {
      ghost var s := View();
      if header.messageNumber > receivingChainCount {
        var ok := SkipMessages(header);
        if !ok {
          return Failure(ReceivingChainNotInitialized);
        }
        TwoPassesAreOne(s.skipped, s.peer, s.recvKey, s.recvCount, header.messageNumber);
      }
      AdvanceReceivingChain(header.messageNumber);
      assert View() == AdvanceTo(s, header.messageNumber);

      var (newChainKey, messageKey) := KdfCk(receivingChainKey);
      receivingChainKey := newChainKey;
      receivingChainCount := receivingChainCount + 1;
      var unsealed := DecryptWithKey(messageKey, header.messageNumber, ciphertext, associatedData);
      return ResultOf(unsealed);
    }

    method DhRatchetSend(newKey: nat) returns (ok: bool)
      modifies this
      ensures ok <==> old(View()).peer.Some?
      ensures View() == if ok then SendRatchet(old(View()), newKey) else old(View())
    {
      if dhReceivingKeyPub.None? {
        return false;
      }
      var dhOutput := DH(newKey, dhReceivingKeyPub.value);
      var (newRootKey, newChainKey) := KdfRk(rootKey, dhOutput);
      previousSendingChainLen := sendingChainCount;
      dhSendingKeyPriv := newKey;
      dhSendingKeyPub := Pub(newKey);
      rootKey := newRootKey;
      sendingChainKey := newChainKey;
      sendingChainCount := 0;
      return true;
    }

    method DhRatchetReceive(header: Header, newKey: nat)
      requires header.dhPub.Some?
      modifies this
      ensures View() == ReceiveRatchet(old(View()), header.previousChainLen, header.dhPub.value, newKey)
    {
      CacheSkippedKeys(header.previousChainLen);
      var dhOutput := DH(dhSendingKeyPriv, header.dhPub.value);
      var (newRootKey, newChainKey) := KdfRk(rootKey, dhOutput);
      rootKey := newRootKey;
      receivingChainKey := newChainKey;
      receivingChainCount := 0;
      dhReceivingKeyPub := header.dhPub;
      var _ := DhRatchetSend(newKey);
    }

    method AdvanceReceivingChain(targetNum: nat)
      modifies `receivingChainKey, `receivingChainCount, `skippedKeys
      ensures View() == AdvanceTo(old(View()), targetNum)
    {
      ghost var s := View();
      while receivingChainCount < targetNum
        invariant s.recvCount <= receivingChainCount <= (if s.recvCount < targetNum then targetNum else s.recvCount)
        invariant receivingChainKey == KeyAt(s.recvKey, receivingChainCount - s.recvCount)
        invariant SkipRange(skippedKeys, dhReceivingKeyPub, receivingChainKey, receivingChainCount, targetNum)
               == SkipRange(s.skipped, s.peer, s.recvKey, s.recvCount, targetNum)
        invariant View() == s.(recvKey := receivingChainKey, recvCount := receivingChainCount, skipped := skippedKeys)
      {
        var (newChainKey, skippedKey) := KdfCk(receivingChainKey);
        receivingChainKey := newChainKey;
        if |skippedKeys| < MAX_SKIPPED_KEYS {
          skippedKeys := skippedKeys[(dhReceivingKeyPub, receivingChainCount) := skippedKey];
        }
        receivingChainCount := receivingChainCount + 1;
      }
    }

    /** Fills the cache only: the chain itself is left where it is. */
    method SkipMessages(header: Header) returns (ok: bool)
      modifies `skippedKeys
      ensures ok <==> !receivingChainKey.NoKey?
      ensures skippedKeys == if !ok then old(skippedKeys) else
                SkipRange(old(skippedKeys), dhReceivingKeyPub, receivingChainKey, receivingChainCount,
                          header.messageNumber)
    {
      if receivingChainKey.NoKey? {
        return false;
      }
      var currentCount := receivingChainCount;
      var currentChainKey := receivingChainKey;
      while currentCount < header.messageNumber
        invariant SkipRange(skippedKeys, dhReceivingKeyPub, currentChainKey, currentCount, header.messageNumber)
               == SkipRange(old(skippedKeys), dhReceivingKeyPub, receivingChainKey, receivingChainCount,
                            header.messageNumber)
      {
        var (newChainKey, skippedKey) := KdfCk(currentChainKey);
        currentChainKey := newChainKey;
        if |skippedKeys| < MAX_SKIPPED_KEYS {
          skippedKeys := skippedKeys[(dhReceivingKeyPub, currentCount) := skippedKey];
        }
        currentCount := currentCount + 1;
      }
      return true;
    }

    method CacheSkippedKeys(prevChainLen: nat)
      modifies `receivingChainKey, `receivingChainCount, `skippedKeys
      ensures View() == CloseReceivingChain(old(View()), prevChainLen)
    {
      if receivingChainKey.NoKey? {
        return;
      }
      ghost var s := View();
      while receivingChainCount < prevChainLen
        invariant s.recvCount <= receivingChainCount <= (if s.recvCount < prevChainLen then prevChainLen
                                                         else s.recvCount)
        invariant receivingChainKey == KeyAt(s.recvKey, receivingChainCount - s.recvCount)
        invariant SkipRange(skippedKeys, dhReceivingKeyPub, receivingChainKey, receivingChainCount, prevChainLen)
               == SkipRange(s.skipped, s.peer, s.recvKey, s.recvCount, prevChainLen)
        invariant View() == s.(recvKey := receivingChainKey, recvCount := receivingChainCount, skipped := skippedKeys)
      {
        var (newChainKey, skippedKey) := KdfCk(receivingChainKey);
        receivingChainKey := newChainKey;
        if |skippedKeys| < MAX_SKIPPED_KEYS {
          skippedKeys := skippedKeys[(dhReceivingKeyPub, receivingChainCount) := skippedKey];
        }
        receivingChainCount := receivingChainCount + 1;
      }
    }

    /** A key is removed when it is looked up. */
    method GetSkippedKey(header: Header) returns (key: Key)
      modifies `skippedKeys
      ensures key == Lookup(old(skippedKeys), (header.dhPub, header.messageNumber))
      ensures skippedKeys == old(skippedKeys) - {(header.dhPub, header.messageNumber)}
    {
      var slot := (header.dhPub, header.messageNumber);
      key := NoKey;
      if slot in skippedKeys {
        key := skippedKeys[slot];
        skippedKeys := skippedKeys - {slot};
      }
    }
  }
}
