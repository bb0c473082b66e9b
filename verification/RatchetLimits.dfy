/** How far one call moves a session, and from which keys a session accepts messages: for any headers
    and any ciphertexts in any order. */
module RatchetLimits {
  import opened Wrappers
  import opened Crypto
  import opened Ratchet
  import opened RatchetOnce

  // ---------------------------------------------------------------- the cache

  lemma {:induction false} RunBounded(s: Session, calls: seq<Call>)
    requires |s.skipped| <= MAX_SKIPPED_KEYS
    ensures |After(s, calls).skipped| <= MAX_SKIPPED_KEYS
    decreases |calls|
  {
    if calls != [] {
      var c := calls[0];
      if c.Dec? {
        CacheBounded(s, c.header, c.ciphertext, c.associatedData, c.newKey);
      }
      RunBounded(Apply(s, c), calls[1..]);
    }
  }

  /** From either constructor on, over any calls, the cache never holds more than 256 keys. */
  lemma CacheAlwaysBounded(s: Session, calls: seq<Call>)
    requires Start(s)
    ensures |After(s, calls).skipped| <= 256
  {
    RunBounded(s, calls);
  }

  // ---------------------------------------------------------------- how far a chain moves

  /** How many steps a call takes to close the receiving chain. */
  function Closing(x: Session, header: Header): nat {
    if NeedsRatchet(x, header) && !x.recvKey.NoKey? && header.previousChainLen > x.recvCount
    then header.previousChainLen - x.recvCount else 0
  }

  /** A cached key opens the message. */
  predicate OpensCached(x: Session, header: Header, ciphertext: Ciphertext, ad: Bytes) {
    var key := Lookup(x.skipped, (header.dhPub, header.messageNumber));
    key != NoKey && DecryptWithKey(key, header.messageNumber, ciphertext, ad).Some?
  }

  predicate NoChain(x: Session, header: Header) {
    header.messageNumber > x.recvCount && x.recvKey.NoKey?
  }

  /** How many steps it takes on the chain that it is on after the DH step. */
  function Forward(x: Session, header: Header, ciphertext: Ciphertext, ad: Bytes): nat {
    if OpensCached(x, header, ciphertext, ad) || NoChain(x, header) then 0
    else if header.messageNumber > x.recvCount then header.messageNumber - x.recvCount + 1
    else 1
  }

  /** The chain keys and counts after a call: whatever the header says, the chains are moved that far. */
  lemma MovesExactly(x: Session, header: Header, ciphertext: Ciphertext, ad: Bytes, newKey: nat)
    ensures NeedsRatchet(x, header) ==>
              var closed := CloseReceivingChain(x, header.previousChainLen);
              && closed.recvKey == KeyAt(x.recvKey, Closing(x, header))
              && closed.recvCount == x.recvCount + Closing(x, header)
    ensures var x1, x' := DhPhase(x, header, newKey), Decrypt(x, header, ciphertext, ad, newKey).0;
            && x'.recvKey == KeyAt(x1.recvKey, Forward(x1, header, ciphertext, ad))
            && x'.recvCount == x1.recvCount + Forward(x1, header, ciphertext, ad)
  {
    var x1 := DhPhase(x, header, newKey);
    if !OpensCached(x1, header, ciphertext, ad) {
      ChainMoves(x1.(skipped := x1.skipped - {(header.dhPub, header.messageNumber)}), header, ciphertext, ad);
    }
  }

  lemma ChainMoves(x: Session, header: Header, ciphertext: Ciphertext, ad: Bytes)
    ensures var x' := ChainDecrypt(x, header, ciphertext, ad).0;
            var n := if NoChain(x, header) then 0
                     else if header.messageNumber > x.recvCount then header.messageNumber - x.recvCount + 1 else 1;
            x'.recvKey == KeyAt(x.recvKey, n) && x'.recvCount == x.recvCount + n
  {
  }

  /** The DH step opens a receiving chain. */
  predicate OpensChain(x: Session, header: Header) {
    header.dhPub.Some? && header.dhPub != x.peer
  }

  /** What the DH step leaves of the slot of the header, of the chain and of the count. */
  lemma AfterDh(x: Session, header: Header, newKey: nat)
    ensures var x1 := DhPhase(x, header, newKey);
            && SameSlots(x.skipped, x1.skipped, header.dhPub)
            && (OpensChain(x, header) ==> x1.recvKey.Chain? && x1.recvCount == 0)
            && (!OpensChain(x, header) ==> x1 == x)
  {
    if NeedsRatchet(x, header) {
      CloseOthers(x, header.previousChainLen, header.dhPub);
    }
  }

  /** A call takes at most 256 steps exactly if it opens a cached message and closes at most 256, or opens
      a chain on which the message number and what is left of the old chain are below 256, or stays on its
      chain with a message less than 256 ahead, or finds no chain. */
  lemma WithinLimitExactly(x: Session, header: Header, ciphertext: Ciphertext, ad: Bytes, newKey: nat)
    ensures Closing(x, header) + Forward(DhPhase(x, header, newKey), header, ciphertext, ad) <= MAX_SKIPPED_KEYS
            <==> if OpensCached(x, header, ciphertext, ad) then Closing(x, header) <= MAX_SKIPPED_KEYS
                 else if OpensChain(x, header) then header.messageNumber + Closing(x, header) < MAX_SKIPPED_KEYS
                 else x.recvKey.NoKey? || header.messageNumber < x.recvCount + MAX_SKIPPED_KEYS
  {
    AfterDh(x, header, newKey);
    var x1 := DhPhase(x, header, newKey);
    var slot := (header.dhPub, header.messageNumber);
    assert Lookup(x1.skipped, slot) == Lookup(x.skipped, slot);
    assert OpensCached(x1, header, ciphertext, ad) <==> OpensCached(x, header, ciphertext, ad);
  }

  /** Skipping slots that are not in the cache fills it up to the cap. */
  lemma {:induction false} SkipFills(cache: Cache, pub: Option<Pub>, chainKey: Key, lo: nat, hi: nat)
    requires lo <= hi && |cache| <= 256 && forall i: nat | lo <= i :: (pub, i) !in cache
    ensures var after := SkipRange(cache, pub, chainKey, lo, hi);
            && |after| == (if |cache| + hi - lo < 256 then |cache| + hi - lo else 256)
            && forall i: nat | hi <= i :: (pub, i) !in after
    decreases hi - lo
  {
    if |cache| == 256 {
      FullStaysFull(cache, pub, chainKey, lo, hi);
    } else if lo < hi {
      var cache' := Remember(cache, (pub, lo), Msg(chainKey));
      assert cache'.Keys == cache.Keys + {(pub, lo)} && |cache'.Keys| == |cache'| && |cache.Keys| == |cache|;
      SkipFills(cache', pub, Next(chainKey), lo + 1, hi);
    }
  }

  /** There is no limit: one header moves a fresh responder as far as it says, with any ciphertext, and fills
      its cache up to the cap of 256. */
  lemma NoSkipLimit(secret: Key, spk: nat, pub: Pub, n: nat, ciphertext: Ciphertext, ad: Bytes, newKey: nat)
    ensures var x' := Decrypt(ResponderSession(secret, spk), Header(Some(pub), 0, n), ciphertext, ad, newKey).0;
            x'.recvCount == n + 1 && |x'.skipped| == if n < 256 then n else 256
  {
    var x, header := ResponderSession(secret, spk), Header(Some(pub), 0, n);
    MovesExactly(x, header, ciphertext, ad, newKey);
    var x1 := DhPhase(x, header, newKey);
    assert x1.skipped - {(header.dhPub, n)} == map[];
    SkipFills(map[], x1.peer, x1.recvKey, 0, n);
  }

  // ---------------------------------------------------------------- whose messages are accepted

  /** The secret that a key is derived from. */
  function Base(k: Key): Key {
    match k
    case NoKey => NoKey
    case Shared(_, _) => k
    case Root(salt, _) => Base(salt)
    case Chain(salt, _) => Base(salt)
    case Next(chainKey) => Base(chainKey)
    case Msg(chainKey) => Base(chainKey)
  }

  /** A session as either constructor makes it from the secret. */
  ghost predicate StartFrom(s: Session, secret: Key) {
    || (exists spk, newKey :: s == InitiatorSession(secret, spk, newKey))
    || (exists spk :: s == ResponderSession(secret, spk))
  }

  /** All keys of the session come from the secret; without a receiving chain it has received nothing. */
  ghost predicate FromSecret(s: Session, secret: Key) {
    && Base(s.root) == secret
    && (!s.recvKey.NoKey? ==> Base(s.recvKey) == secret)
    && (s.recvKey.NoKey? ==> s.recvCount == 0 && s.skipped == map[])
    && (forall k: Slot | k in s.skipped :: Base(s.skipped[k]) == secret)
  }

  /** The call would decrypt message 0 of a chain that does not exist. */
  predicate OnNilChain(s: Session, header: Header, newKey: nat) {
    DhPhase(s, header, newKey).recvKey.NoKey? && header.messageNumber == 0
  }

  ghost predicate NoNilChains(s: Session, calls: seq<Call>)
    decreases |calls|
  {
    calls != [] ==>
      && (calls[0].Dec? ==> !OnNilChain(s, calls[0].header, calls[0].newKey))
      && NoNilChains(Apply(s, calls[0]), calls[1..])
  }

  lemma {:induction false} BaseKeyAt(k: Key, n: nat)
    ensures Base(KeyAt(k, n)) == Base(k)
  {
    if n > 0 {
      BaseKeyAt(k, n - 1);
    }
  }

  lemma {:induction false} BaseSkipRange(cache: Cache, pub: Option<Pub>, chainKey: Key, lo: nat, hi: nat, secret: Key)
    requires Base(chainKey) == secret && forall k: Slot | k in cache :: Base(cache[k]) == secret
    ensures forall k: Slot | k in SkipRange(cache, pub, chainKey, lo, hi) ::
              Base(SkipRange(cache, pub, chainKey, lo, hi)[k]) == secret
    decreases hi - lo
  {
    if lo < hi {
      BaseSkipRange(Remember(cache, (pub, lo), Msg(chainKey)), pub, Next(chainKey), lo + 1, hi, secret);
    }
  }

  lemma AdvanceFromSecret(s: Session, secret: Key, n: nat)
    requires FromSecret(s, secret) && !s.recvKey.NoKey? && secret.Shared?
    ensures FromSecret(AdvanceTo(s, n), secret) && !AdvanceTo(s, n).recvKey.NoKey?
  {
    if n > s.recvCount {
      BaseKeyAt(s.recvKey, n - s.recvCount);
      BaseSkipRange(s.skipped, s.peer, s.recvKey, s.recvCount, n, secret);
    }
  }

  lemma DhFromSecret(s: Session, secret: Key, header: Header, newKey: nat)
    requires FromSecret(s, secret) && secret.Shared?
    ensures FromSecret(DhPhase(s, header, newKey), secret)
  {
    if NeedsRatchet(s, header) && !s.recvKey.NoKey? {
      AdvanceFromSecret(s, secret, header.previousChainLen);
    }
  }

  lemma FinishFromSecret(s: Session, secret: Key, header: Header, ciphertext: Ciphertext, ad: Bytes)
    requires FromSecret(s, secret) && secret.Shared? && !(s.recvKey.NoKey? && header.messageNumber == 0)
    ensures var (s', r) := Finish(s, header, ciphertext, ad);
            FromSecret(s', secret) && (r.Success? ==> ciphertext.Sealed? && Base(ciphertext.key) == secret)
  {
    var s1 := s.(skipped := s.skipped - {(header.dhPub, header.messageNumber)});
    assert FromSecret(s1, secret);
    ChainFromSecret(s1, secret, header, ciphertext, ad);
  }

  lemma ChainFromSecret(s: Session, secret: Key, header: Header, ciphertext: Ciphertext, ad: Bytes)
    requires FromSecret(s, secret) && secret.Shared? && !(s.recvKey.NoKey? && header.messageNumber == 0)
    ensures var (s', r) := ChainDecrypt(s, header, ciphertext, ad);
            FromSecret(s', secret) && (r.Success? ==> ciphertext.Sealed? && Base(ciphertext.key) == secret)
  {
    if !s.recvKey.NoKey? {
      AdvanceFromSecret(s, secret, header.messageNumber);
    }
  }

  lemma {:induction false} RunFromSecret(s: Session, secret: Key, calls: seq<Call>)
    requires FromSecret(s, secret) && secret.Shared? && NoNilChains(s, calls)
    ensures FromSecret(After(s, calls), secret)
    decreases |calls|
  {
    if calls != [] {
      var c := calls[0];
      if c.Dec? {
        DhFromSecret(s, secret, c.header, c.newKey);
        FinishFromSecret(DhPhase(s, c.header, c.newKey), secret, c.header, c.ciphertext, c.associatedData);
      }
      RunFromSecret(Apply(s, c), secret, calls[1..]);
    }
  }

  // ---------------------------------------------------------------- after any calls at all

  /** The root comes from the secret, cached keys are message keys, and a session without a receiving
      chain has received nothing. */
  ghost predicate Rooted(s: Session, secret: Key) {
    && Base(s.root) == secret
    && (forall k: Slot | k in s.skipped :: s.skipped[k].Msg?)
    && (s.recvKey.NoKey? ==> s.recvCount == 0 && s.skipped == map[])
  }

  lemma {:induction false} MsgSkipRange(cache: Cache, pub: Option<Pub>, chainKey: Key, lo: nat, hi: nat)
    requires forall k: Slot | k in cache :: cache[k].Msg?
    ensures forall k: Slot | k in SkipRange(cache, pub, chainKey, lo, hi) ::
              SkipRange(cache, pub, chainKey, lo, hi)[k].Msg?
    decreases hi - lo
  {
    if lo < hi {
      MsgSkipRange(Remember(cache, (pub, lo), Msg(chainKey)), pub, Next(chainKey), lo + 1, hi);
    }
  }

  lemma AdvanceRooted(s: Session, secret: Key, n: nat)
    requires Rooted(s, secret) && !s.recvKey.NoKey?
    ensures var s' := AdvanceTo(s, n);
            Rooted(s', secret) && !s'.recvKey.NoKey? && Base(s'.recvKey) == Base(s.recvKey)
  {
    if n > s.recvCount {
      BaseKeyAt(s.recvKey, n - s.recvCount);
      MsgSkipRange(s.skipped, s.peer, s.recvKey, s.recvCount, n);
    }
  }

  lemma DhRooted(s: Session, secret: Key, header: Header, newKey: nat)
    requires Rooted(s, secret)
    ensures var s' := DhPhase(s, header, newKey);
            && Rooted(s', secret)
            && (if OpensChain(s, header) then Base(s'.recvKey) == secret else s' == s)
  {
    if NeedsRatchet(s, header) && !s.recvKey.NoKey? {
      AdvanceRooted(s, secret, header.previousChainLen);
    }
  }

  lemma ChainRooted(s: Session, secret: Key, header: Header, ciphertext: Ciphertext, ad: Bytes)
    requires Rooted(s, secret)
    ensures var (s', r) := ChainDecrypt(s, header, ciphertext, ad);
            && Rooted(s', secret) && Base(s'.recvKey) == Base(s.recvKey)
            && (r.Success? ==> ciphertext.Sealed? && Base(ciphertext.key) == Base(s.recvKey) && !NoChain(s, header))
  {
    if !s.recvKey.NoKey? {
      AdvanceRooted(s, secret, header.messageNumber);
    }
  }

  /** After a decryption the chain comes from where it came; what opened comes from the cached key or from
      the chain. */
  lemma FinishRooted(s: Session, secret: Key, header: Header, ciphertext: Ciphertext, ad: Bytes)
    requires Rooted(s, secret)
    ensures var (s', r) := Finish(s, header, ciphertext, ad);
            && Rooted(s', secret) && Base(s'.recvKey) == Base(s.recvKey)
            && (r.Success? ==>
                  && ciphertext.Sealed?
                  && (|| (Base(ciphertext.key) == Base(s.recvKey) && !NoChain(s, header))
                      || ciphertext.key == Lookup(s.skipped, (header.dhPub, header.messageNumber))))
  {
    var s1 := s.(skipped := s.skipped - {(header.dhPub, header.messageNumber)});
    assert Rooted(s1, secret);
    ChainRooted(s1, secret, header, ciphertext, ad);
  }

  /** Some call of the run opens a receiving chain. */
  ghost predicate OpenedBy(s: Session, calls: seq<Call>)
    decreases |calls|
  {
    calls != [] && ((calls[0].Dec? && OpensChain(s, calls[0].header)) || OpenedBy(Apply(s, calls[0]), calls[1..]))
  }

  /** The receiving chain comes from the secret exactly if some call opened one, or it did before. */
  lemma {:induction false} RunRooted(s: Session, secret: Key, calls: seq<Call>)
    requires Rooted(s, secret)
    ensures Rooted(After(s, calls), secret)
    ensures Base(After(s, calls).recvKey) == secret <==> Base(s.recvKey) == secret || OpenedBy(s, calls)
    decreases |calls|
  {
    if calls != [] {
      var c := calls[0];
      if c.Dec? {
        DhRooted(s, secret, c.header, c.newKey);
        FinishRooted(DhPhase(s, c.header, c.newKey), secret, c.header, c.ciphertext, c.associatedData);
      }
      RunRooted(Apply(s, c), secret, calls[1..]);
    }
  }

  /** The ciphertext is accepted although its key does not come from the secret. */
  ghost predicate AcceptsForeign(s: Session, secret: Key, header: Header, ciphertext: Ciphertext, ad: Bytes,
                                 newKey: nat)
  {
    && Decrypt(s, header, ciphertext, ad, newKey).1.Success?
    && !(ciphertext.Sealed? && Base(ciphertext.key) == secret)
  }

  /** The key in the slot of the header does not come from the secret. */
  predicate CachesForeign(s: Session, secret: Key, header: Header) {
    var slot := (header.dhPub, header.messageNumber);
    slot in s.skipped && Base(s.skipped[slot]) != secret
  }

  function SealUnder(key: Key, n: nat, ad: Bytes, plaintext: Bytes): Ciphertext {
    Sealed(key, Nonce(key, n), ad, plaintext)
  }

  /** The key that the chain would use for the message number. */
  function ChainKeyFor(s: Session, n: nat): Key {
    Msg(AdvanceTo(s, n).recvKey)
  }

  /** A seal under the cached key opens, and so does one under the chain's key. */
  lemma SealOpens(s: Session, header: Header, ad: Bytes, plaintext: Bytes)
    requires forall k: Slot | k in s.skipped :: s.skipped[k].Msg?
    ensures var n, slot := header.messageNumber, (header.dhPub, header.messageNumber);
            && (slot in s.skipped ==>
                  Finish(s, header, SealUnder(s.skipped[slot], n, ad, plaintext), ad).1 == Success(plaintext))
            && (!NoChain(s, header) ==>
                  Finish(s, header, SealUnder(ChainKeyFor(s, n), n, ad, plaintext), ad).1 == Success(plaintext))
  {
    var s1 := s.(skipped := s.skipped - {(header.dhPub, header.messageNumber)});
    assert AdvanceTo(s1, header.messageNumber).recvKey == AdvanceTo(s, header.messageNumber).recvKey;
  }

  lemma ChainKeyBase(s: Session, n: nat)
    ensures Base(ChainKeyFor(s, n)) == Base(s.recvKey)
  {
    if n > s.recvCount {
      BaseKeyAt(s.recvKey, n - s.recvCount);
    }
  }

  /** From either constructor on, after any calls: a header makes the session accept some message that is
      not sealed under the shared secret exactly if no call so far, this one included, opens a receiving
      chain, and the header is not ahead of a chain that does not exist; or the slot of the header caches a
      key that does not come from the secret. */
  lemma AuthenticExactly(s: Session, secret: Key, calls: seq<Call>, header: Header, ad: Bytes, newKey: nat)
    requires StartFrom(s, secret) && secret.Shared?
    ensures var s' := After(s, calls);
            (exists ciphertext :: AcceptsForeign(s', secret, header, ciphertext, ad, newKey))
            <==> || (!OpenedBy(s, calls) && !OpensChain(s', header) && !NoChain(s', header))
                 || CachesForeign(s', secret, header)
  {
    RunRooted(s, secret, calls);
    ForeignExactly(After(s, calls), secret, header, ad, newKey);
  }

  lemma ForeignExactly(s: Session, secret: Key, header: Header, ad: Bytes, newKey: nat)
    requires Rooted(s, secret) && secret.Shared?
    ensures (exists ciphertext :: AcceptsForeign(s, secret, header, ciphertext, ad, newKey))
            <==> || (Base(s.recvKey) != secret && !OpensChain(s, header) && !NoChain(s, header))
                 || CachesForeign(s, secret, header)
  {
    var x, n := DhPhase(s, header, newKey), header.messageNumber;
    DhRooted(s, secret, header, newKey);
    AfterDh(s, header, newKey);
    SealOpens(x, header, ad, []);
    ChainKeyBase(x, n);
    if CachesForeign(s, secret, header) {
      assert CachesForeign(x, secret, header);
      assert AcceptsForeign(s, secret, header, SealUnder(x.skipped[(header.dhPub, n)], n, ad, []), ad, newKey);
    } else if Base(s.recvKey) != secret && !OpensChain(s, header) && !NoChain(s, header) {
      assert AcceptsForeign(s, secret, header, SealUnder(ChainKeyFor(x, n), n, ad, []), ad, newKey);
    } else {
      forall ciphertext
        ensures !AcceptsForeign(s, secret, header, ciphertext, ad, newKey)
      {
        FinishRooted(x, secret, header, ciphertext, ad);
      }
    }
  }

  // ---------------------------------------------------------------- how it comes about

  /** The first time is a call on a chain that does not exist: as long as no call was one, a header makes
      the session accept a foreign message exactly if it is for message 0 and the DH step leaves no
      receiving chain. */
  lemma FirstForeignExactly(s: Session, secret: Key, calls: seq<Call>, header: Header, ad: Bytes, newKey: nat)
    requires StartFrom(s, secret) && secret.Shared? && NoNilChains(s, calls)
    ensures (exists ciphertext :: AcceptsForeign(After(s, calls), secret, header, ciphertext, ad, newKey))
            <==> OnNilChain(After(s, calls), header, newKey)
  {
    RunFromSecret(s, secret, calls);
    RunRooted(s, secret, calls);
    var s' := After(s, calls);
    ForeignExactly(s', secret, header, ad, newKey);
    AfterDh(s', header, newKey);
  }

  /** A key that does not come from the secret is cached only after a call on a chain that does not exist. */
  lemma ForeignCacheNeedsNil(s: Session, secret: Key, calls: seq<Call>, header: Header)
    requires StartFrom(s, secret) && secret.Shared? && CachesForeign(After(s, calls), secret, header)
    ensures !NoNilChains(s, calls)
  {
    if NoNilChains(s, calls) {
      RunFromSecret(s, secret, calls);
    }
  }

  /** Both fresh sessions accept such a message: an initiator under its peer's prekey, a responder under
      no ratchet key. */
  lemma FreshAcceptForeign(secret: Key, spk: nat, first: nat, ad: Bytes, plaintext: Bytes, newKey: nat)
    requires secret.Shared?
    ensures Decrypt(InitiatorSession(secret, Pub(spk), first), Header(Some(Pub(spk)), 0, 0),
                    SealUnder(Msg(NoKey), 0, ad, plaintext), ad, newKey).1
            == Success(plaintext)
    ensures Decrypt(ResponderSession(secret, spk), Header(None, 0, 0), SealUnder(Msg(NoKey), 0, ad, plaintext),
                    ad, newKey).1
            == Success(plaintext)
  {
    SealOpens(InitiatorSession(secret, Pub(spk), first), Header(Some(Pub(spk)), 0, 0), ad, plaintext);
    SealOpens(ResponderSession(secret, spk), Header(None, 0, 0), ad, plaintext);
  }

  /** A call that fails is enough: after it, message 1 is accepted under a key that does not come from the
      secret. */
  lemma FailedCallIsEnough(secret: Key, spk: nat, first: nat, ad: Bytes, plaintext: Bytes, newKey: nat, newKey2: nat)
    requires secret.Shared?
    ensures var s := InitiatorSession(secret, Pub(spk), first);
            var (s', r) := Decrypt(s, Header(Some(Pub(spk)), 0, 0), Junk([]), ad, newKey);
            && r == Failure(DecryptionFailed)
            && !OnNilChain(s', Header(Some(Pub(spk)), 0, 1), newKey2)
            && Decrypt(s', Header(Some(Pub(spk)), 0, 1), SealUnder(Msg(Next(NoKey)), 1, ad, plaintext), ad, newKey2).1
               == Success(plaintext)
  {
    var s := InitiatorSession(secret, Pub(spk), first);
    var s' := Decrypt(s, Header(Some(Pub(spk)), 0, 0), Junk([]), ad, newKey).0;
    assert s'.recvKey == Next(NoKey) && s'.recvCount == 1 && s'.skipped == map[];
    SealOpens(s', Header(Some(Pub(spk)), 0, 1), ad, plaintext);
  }
}
