/** What holds of one session on every schedule: any headers, any ciphertexts, any order. */
module RatchetOnce {
  import opened Wrappers
  import opened Crypto
  import opened Ratchet

  datatype Call =
    | Enc(plaintext: Bytes, associatedData: Bytes, newKey: nat)
    | Dec(header: Header, ciphertext: Ciphertext, associatedData: Bytes, newKey: nat)

  function Apply(s: Session, c: Call): Session {
    match c
    case Enc(plaintext, ad, newKey) =>
      var r := Encrypt(s, plaintext, ad, newKey);
      if r.Success? then r.value.0 else s
    case Dec(header, ciphertext, ad, newKey) => Decrypt(s, header, ciphertext, ad, newKey).0
  }

  function After(s: Session, calls: seq<Call>): Session
    decreases |calls|
  {
    if calls == [] then s else After(Apply(s, calls[0]), calls[1..])
  }

  /** Call `i` of the run is a decryption that succeeds. */
  predicate Opens(s: Session, calls: seq<Call>, i: nat)
    requires i < |calls|
  {
    var c := calls[i];
    c.Dec? && Decrypt(After(s, calls[..i]), c.header, c.ciphertext, c.associatedData, c.newKey).1.Success?
  }

  /** Call `i` of the run is an encryption that succeeds, and this is the key it seals with. */
  function SealedWith(s: Session, calls: seq<Call>, i: nat): Option<Key>
    requires i < |calls|
  {
    var c := calls[i];
    if c.Dec? then None else
    var r := Encrypt(After(s, calls[..i]), c.plaintext, c.associatedData, c.newKey);
    if r.Failure? || !r.value.1.ciphertext.Sealed? then None else Some(r.value.1.ciphertext.key)
  }

  /** A session as either constructor makes it. */
  ghost predicate Start(s: Session) {
    || (exists secret, spk, newKey :: s == InitiatorSession(secret, spk, newKey))
    || (exists secret, spk :: s == ResponderSession(secret, spk))
  }

  // ---------------------------------------------------------------- the order of derived keys

  /** How many root steps lie below a root key. */
  function RootDepth(k: Key): nat {
    match k
    case Root(salt, _) => RootDepth(salt) + 1
    case _ => 0
  }

  /** Which ratchet step opened a chain: zero for the nil chain. */
  function ChainRank(k: Key): nat {
    match k
    case Chain(salt, _) => RootDepth(salt) + 1
    case Next(chainKey) => ChainRank(chainKey)
    case _ => 0
  }

  function ChainSteps(k: Key): nat {
    match k
    case Next(chainKey) => ChainSteps(chainKey) + 1
    case _ => 0
  }

  /** The message key comes strictly before those that the chain key still yields. */
  ghost predicate Before(key: Key, chainKey: Key) {
    && key.Msg?
    && (ChainRank(key.chainKey) < ChainRank(chainKey)
        || (ChainRank(key.chainKey) == ChainRank(chainKey) && ChainSteps(key.chainKey) < ChainSteps(chainKey)))
  }

  // ---------------------------------------------------------------- at-most-once decryption

  /** The keys in the cache and the keys that opened something are all behind the receiving chain,
      no key is cached twice, and none that was used is cached. */
  ghost predicate Spent(s: Session, used: set<Key>) {
    && ChainRank(s.recvKey) <= RootDepth(s.root)
    && (forall k: Slot | k in s.skipped :: Before(s.skipped[k], s.recvKey) && s.skipped[k] !in used)
    && (forall k: Slot, l: Slot | k in s.skipped && l in s.skipped && s.skipped[k] == s.skipped[l] :: k == l)
    && (forall key | key in used :: Before(key, s.recvKey))
  }

  /** The chain moves by one key, which the cache takes if it has room. */
  function SkipOne(s: Session): Session {
    s.(recvKey := Next(s.recvKey), recvCount := s.recvCount + 1,
       skipped := Remember(s.skipped, (s.peer, s.recvCount), Msg(s.recvKey)))
  }

  lemma AdvanceByOne(s: Session, n: nat)
    requires s.recvCount < n
    ensures AdvanceTo(s, n) == AdvanceTo(SkipOne(s), n)
  {
    var s1 := SkipOne(s);
    KeyAtNext(s.recvKey, n - s1.recvCount);
    assert SkipRange(s.skipped, s.peer, s.recvKey, s.recvCount, n)
        == SkipRange(s1.skipped, s1.peer, s1.recvKey, s1.recvCount, n);
    if n == s1.recvCount {
      assert SkipRange(s1.skipped, s1.peer, s1.recvKey, s1.recvCount, n) == s1.skipped;
      assert KeyAt(s.recvKey, 1) == Next(KeyAt(s.recvKey, 0)) == s1.recvKey;
      assert AdvanceTo(s1, n) == s1;
    }
  }

  lemma SpentSkipOne(s: Session, used: set<Key>)
    requires Spent(s, used)
    ensures Spent(SkipOne(s), used)
  {
    var s' := SkipOne(s);
    forall k: Slot | k in s'.skipped
      ensures Before(s'.skipped[k], s'.recvKey) && s'.skipped[k] !in used
    {
      assert (k in s.skipped && s'.skipped[k] == s.skipped[k]) || s'.skipped[k] == Msg(s.recvKey);
    }
  }

  lemma {:induction false} SpentAdvance(s: Session, used: set<Key>, n: nat)
    requires Spent(s, used)
    ensures Spent(AdvanceTo(s, n), used)
    decreases n - s.recvCount
  {
    if s.recvCount < n {
      SpentSkipOne(s, used);
      SpentAdvance(SkipOne(s), used, n);
      AdvanceByOne(s, n);
    }
  }

  /** A chain opened by a new root step is ahead of every key so far. */
  lemma SpentOpenChain(s: Session, used: set<Key>, pub: Pub)
    requires Spent(s, used)
    ensures Spent(OpenReceivingChain(s, pub), used)
  {
  }

  lemma SpentDhPhase(s: Session, used: set<Key>, header: Header, newKey: nat)
    requires Spent(s, used)
    ensures Spent(DhPhase(s, header, newKey), used)
  {
    if NeedsRatchet(s, header) {
      SpentAdvance(s, used, header.previousChainLen);
      var s1 := CloseReceivingChain(s, header.previousChainLen);
      SpentOpenChain(s1, used, header.dhPub.value);
      var s2 := OpenReceivingChain(s1, header.dhPub.value);
      var s3 := SendRatchet(s2, newKey);
      assert s3.skipped == s2.skipped && s3.recvKey == s2.recvKey;
    } else if header.dhPub.Some? && s.peer.None? {
      SpentOpenChain(s, used, header.dhPub.value);
    }
  }

  lemma SpentForget(s: Session, used: set<Key>, slot: Slot)
    requires Spent(s, used)
    ensures Spent(s.(skipped := s.skipped - {slot}), used)
    ensures slot in s.skipped ==>
              s.skipped[slot] !in used && Spent(s.(skipped := s.skipped - {slot}), used + {s.skipped[slot]})
  {
  }

  lemma SpentTake(s: Session, used: set<Key>)
    requires Spent(s, used)
    ensures var s' := s.(recvKey := Next(s.recvKey), recvCount := s.recvCount + 1);
            Msg(s.recvKey) !in used && Spent(s', used) && Spent(s', used + {Msg(s.recvKey)})
  {
  }

  /** A successful decryption uses a key that was never used, and it is the ciphertext's own. */
  ghost predicate UsesNewKey(s': Session, r: Result<Bytes, Error>, used: set<Key>, ciphertext: Ciphertext) {
    if r.Success? then ciphertext.Sealed? && ciphertext.key !in used && Spent(s', used + {ciphertext.key})
    else Spent(s', used)
  }

  /** Opening with the chain's own next key, after the cache did not help. */
  function TakeNext(s: Session, n: nat, ciphertext: Ciphertext, ad: Bytes): (Session, Result<Bytes, Error>) {
    (s.(recvKey := Next(s.recvKey), recvCount := s.recvCount + 1),
     ResultOf(DecryptWithKey(Msg(s.recvKey), n, ciphertext, ad)))
  }

  lemma SpentTakeNext(s: Session, used: set<Key>, n: nat, ciphertext: Ciphertext, ad: Bytes)
    requires Spent(s, used)
    ensures var (s', r) := TakeNext(s, n, ciphertext, ad);
            UsesNewKey(s', r, used, ciphertext)
  {
    SpentTake(s, used);
  }

  lemma SpentChainDecrypt(s: Session, used: set<Key>, header: Header, ciphertext: Ciphertext, ad: Bytes)
    requires Spent(s, used)
    ensures var (s', r) := ChainDecrypt(s, header, ciphertext, ad);
            UsesNewKey(s', r, used, ciphertext)
  {
    var n := header.messageNumber;
    SpentAdvance(s, used, n);
    SpentTakeNext(AdvanceTo(s, n), used, n, ciphertext, ad);
    assert ChainDecrypt(s, header, ciphertext, ad) == (s, Failure(ReceivingChainNotInitialized))
        || ChainDecrypt(s, header, ciphertext, ad) == TakeNext(AdvanceTo(s, n), n, ciphertext, ad);
  }

  lemma SpentFinish(s: Session, used: set<Key>, header: Header, ciphertext: Ciphertext, ad: Bytes)
    requires Spent(s, used)
    ensures var (s', r) := Finish(s, header, ciphertext, ad);
            UsesNewKey(s', r, used, ciphertext)
  {
    var slot := (header.dhPub, header.messageNumber);
    SpentForget(s, used, slot);
    SpentChainDecrypt(s.(skipped := s.skipped - {slot}), used, header, ciphertext, ad);
  }

  lemma SpentDecrypt(s: Session, used: set<Key>, header: Header, ciphertext: Ciphertext, ad: Bytes, newKey: nat)
    requires Spent(s, used)
    ensures var (s', r) := Decrypt(s, header, ciphertext, ad, newKey);
            UsesNewKey(s', r, used, ciphertext)
  {
    SpentDhPhase(s, used, header, newKey);
    SpentFinish(DhPhase(s, header, newKey), used, header, ciphertext, ad);
  }

  lemma SpentApply(s: Session, used: set<Key>, c: Call)
    requires Spent(s, used)
    ensures Spent(Apply(s, c), used)
  {
    if c.Dec? {
      SpentDecrypt(s, used, c.header, c.ciphertext, c.associatedData, c.newKey);
    }
  }

  lemma {:induction false} AfterSplit(s: Session, calls: seq<Call>, more: seq<Call>)
    ensures After(s, calls + more) == After(After(s, calls), more)
    decreases |calls|
  {
    if calls == [] {
      assert calls + more == more;
    } else {
      assert (calls + more)[1..] == calls[1..] + more;
      AfterSplit(Apply(s, calls[0]), calls[1..], more);
    }
  }

  /** The state before call `j`, reached from the state after an earlier call `i`. */
  lemma AfterBetween(s: Session, calls: seq<Call>, i: nat, j: nat)
    requires i < j <= |calls|
    ensures After(s, calls[..j]) == After(Apply(After(s, calls[..i]), calls[i]), calls[i + 1..j])
  {
    assert calls[..j] == calls[..i] + calls[i..j];
    AfterSplit(s, calls[..i], calls[i..j]);
  }

  lemma {:induction false} SpentAfter(s: Session, used: set<Key>, calls: seq<Call>)
    requires Spent(s, used)
    ensures Spent(After(s, calls), used)
    decreases |calls|
  {
    if calls != [] {
      SpentApply(s, used, calls[0]);
      SpentAfter(Apply(s, calls[0]), used, calls[1..]);
    }
  }

  /** At-most-once decryption: no ciphertext decrypts twice at a receiver, whatever the schedule of
      reordered, repeated, stale or forged messages. */
  lemma AtMostOnce(s: Session, calls: seq<Call>, i: nat, j: nat)
    requires Start(s) && i < j < |calls|
    requires Opens(s, calls, i) && Opens(s, calls, j)
    ensures calls[i].ciphertext != calls[j].ciphertext
  {
    var c, d := calls[i], calls[j];
    StartRanked(s);
    SpentAfter(s, {}, calls[..i]);
    var s1 := After(s, calls[..i]);
    SpentDecrypt(s1, {}, c.header, c.ciphertext, c.associatedData, c.newKey);
    var used := {} + {c.ciphertext.key};
    SpentAfter(Apply(s1, c), used, calls[i + 1..j]);
    AfterBetween(s, calls, i, j);
    SpentDecrypt(After(s, calls[..j]), used, d.header, d.ciphertext, d.associatedData, d.newKey);
  }

  lemma StartRanked(s: Session)
    requires Start(s)
    ensures SendRanked(s) && Spent(s, {})
  {
  }

  // ---------------------------------------------------------------- no key seals twice

  /** The sending chain was opened by a root step that the session has taken. */
  ghost predicate SendRanked(s: Session) {
    ChainRank(s.sendKey) <= RootDepth(s.root)
  }

  /** The sending chain moves forward only, and a message is sealed with a key that it leaves behind. */
  ghost predicate SendAdvances(s: Session, s': Session) {
    && SendRanked(s')
    && (|| ChainRank(s.sendKey) < ChainRank(s'.sendKey)
        || (ChainRank(s.sendKey) == ChainRank(s'.sendKey) && ChainSteps(s.sendKey) <= ChainSteps(s'.sendKey)))
  }

  lemma SendEncrypt(s: Session, plaintext: Bytes, ad: Bytes, newKey: nat)
    requires SendRanked(s)
    ensures var r := Encrypt(s, plaintext, ad, newKey);
            r.Success? ==>
              && r.value.1.ciphertext.Sealed?
              && SendAdvances(s, r.value.0)
              && Before(r.value.1.ciphertext.key, r.value.0.sendKey)
              && !Before(r.value.1.ciphertext.key, s.sendKey)
  {
  }

  lemma SendDecrypt(s: Session, header: Header, ciphertext: Ciphertext, ad: Bytes, newKey: nat)
    requires SendRanked(s)
    ensures SendAdvances(s, Decrypt(s, header, ciphertext, ad, newKey).0)
  {
    var s1 := DhPhase(s, header, newKey);
    assert SendAdvances(s, s1);
    var s2 := Finish(s1, header, ciphertext, ad).0;
    assert s2.sendKey == s1.sendKey && s2.root == s1.root;
  }

  lemma SendApply(s: Session, c: Call)
    requires SendRanked(s)
    ensures SendAdvances(s, Apply(s, c))
  {
    if c.Enc? {
      SendEncrypt(s, c.plaintext, c.associatedData, c.newKey);
    } else {
      SendDecrypt(s, c.header, c.ciphertext, c.associatedData, c.newKey);
    }
  }

  lemma {:induction false} SendAfter(s: Session, calls: seq<Call>)
    requires SendRanked(s)
    ensures SendAdvances(s, After(s, calls))
    decreases |calls|
  {
    if calls != [] {
      SendApply(s, calls[0]);
      SendAfter(Apply(s, calls[0]), calls[1..]);
    }
  }

  /** No two messages of a session are sealed with the same key, so no nonce is reused under a key. */
  lemma SealsOnce(s: Session, calls: seq<Call>, i: nat, j: nat)
    requires Start(s) && i < j < |calls|
    requires SealedWith(s, calls, i).Some? && SealedWith(s, calls, j).Some?
    ensures SealedWith(s, calls, i) != SealedWith(s, calls, j)
  {
    var c, d := calls[i], calls[j];
    StartRanked(s);
    SendAfter(s, calls[..i]);
    var s1 := After(s, calls[..i]);
    SendEncrypt(s1, c.plaintext, c.associatedData, c.newKey);
    SendAfter(Apply(s1, c), calls[i + 1..j]);
    AfterBetween(s, calls, i, j);
    SendEncrypt(After(s, calls[..j]), d.plaintext, d.associatedData, d.newKey);
  }
}
