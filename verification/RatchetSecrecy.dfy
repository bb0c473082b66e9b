/** Forward secrecy: what a later state of a session says about the keys it used before. */
module RatchetSecrecy {
  import opened Wrappers
  import opened Crypto
  import opened Ratchet
  import opened RatchetOnce
  import opened RatchetLimits

  /** The second key is the first one or is derived from it, given every DH output. */
  ghost predicate Yields(part: Key, key: Key) {
    || part == key
    || match key
       case Root(salt, _) => Yields(part, salt)
       case Chain(salt, _) => Yields(part, salt)
       case Next(chainKey) => Yields(part, chainKey)
       case Msg(chainKey) => Yields(part, chainKey)
       case _ => false
  }

  /** What somebody can derive who reads the whole session and knows every DH output that there ever is:
      what the keys of the session yield, and what the nil key yields, which everybody knows. */
  ghost predicate Derivable(s: Session, key: Key) {
    || Yields(NoKey, key)
    || Yields(s.root, key) || Yields(s.sendKey, key) || Yields(s.recvKey, key)
    || (exists slot: Slot :: slot in s.skipped && Yields(s.skipped[slot], key))
  }

  // ---------------------------------------------------------------- the shape of a session's keys

  predicate IsRoot(key: Key, secret: Key) {
    key == secret || (key.Root? && IsRoot(key.salt, secret))
  }

  predicate IsChain(key: Key, secret: Key) {
    (key.Chain? && IsRoot(key.salt, secret)) || (key.Next? && IsChain(key.chainKey, secret))
  }

  /** The nil chain key, moved forward any number of times. */
  predicate IsNil(key: Key) {
    key.NoKey? || (key.Next? && IsNil(key.chainKey))
  }

  /** A key that the session may decrypt with: from a chain, not the sending one, or from the nil chain. */
  ghost predicate Receives(s: Session, secret: Key, chainKey: Key) {
    && (IsChain(chainKey, secret) || IsNil(chainKey))
    && ChainRank(chainKey) <= RootDepth(s.root)
    && (ChainRank(chainKey) == 0 || ChainRank(chainKey) != ChainRank(s.sendKey))
  }

  ghost predicate Shaped(s: Session, secret: Key) {
    && IsRoot(s.root, secret)
    && (s.sendKey.NoKey? || IsChain(s.sendKey, secret)) && SendRanked(s)
    && Receives(s, secret, s.recvKey)
    && (forall slot: Slot | slot in s.skipped ::
          s.skipped[slot].Msg? && Receives(s, secret, s.skipped[slot].chainKey))
  }

  lemma {:induction false} ShapedAdvance(s: Session, secret: Key, n: nat)
    requires Shaped(s, secret)
    ensures Shaped(AdvanceTo(s, n), secret)
    decreases n - s.recvCount
  {
    if s.recvCount < n {
      AdvanceByOne(s, n);
      ShapedSkipOne(s, secret);
      ShapedAdvance(SkipOne(s), secret, n);
    }
  }

  lemma ShapedSkipOne(s: Session, secret: Key)
    requires Shaped(s, secret)
    ensures Shaped(SkipOne(s), secret)
  {
    assert Receives(s, secret, Next(s.recvKey));
  }

  lemma ShapedDhPhase(s: Session, secret: Key, header: Header, newKey: nat)
    requires Shaped(s, secret)
    ensures Shaped(DhPhase(s, header, newKey), secret)
  {
    if NeedsRatchet(s, header) {
      ShapedAdvance(s, secret, header.previousChainLen);
      var s1 := CloseReceivingChain(s, header.previousChainLen);
      ShapedOpen(s1, secret, header.dhPub.value);
      ShapedSend(OpenReceivingChain(s1, header.dhPub.value), secret, newKey);
    } else if header.dhPub.Some? && s.peer.None? {
      ShapedOpen(s, secret, header.dhPub.value);
    }
  }

  lemma ShapedOpen(s: Session, secret: Key, pub: Pub)
    requires Shaped(s, secret)
    ensures Shaped(OpenReceivingChain(s, pub), secret)
  {
  }

  lemma ShapedSend(s: Session, secret: Key, newKey: nat)
    requires Shaped(s, secret) && s.peer.Some?
    ensures Shaped(SendRatchet(s, newKey), secret)
  {
  }

  /** What opens is a key that the session may decrypt with. */
  ghost predicate OpensReceived(s': Session, secret: Key, r: Result<Bytes, Error>, ciphertext: Ciphertext) {
    r.Success? ==> ciphertext.Sealed? && ciphertext.key.Msg? && Receives(s', secret, ciphertext.key.chainKey)
  }

  lemma ShapedTakeNext(s: Session, secret: Key, n: nat, ciphertext: Ciphertext, ad: Bytes)
    requires Shaped(s, secret)
    ensures var (s', r) := TakeNext(s, n, ciphertext, ad);
            Shaped(s', secret) && OpensReceived(s', secret, r, ciphertext)
  {
    assert Receives(s, secret, Next(s.recvKey));
  }

  lemma ShapedChainDecrypt(s: Session, secret: Key, header: Header, ciphertext: Ciphertext, ad: Bytes)
    requires Shaped(s, secret)
    ensures var (s', r) := ChainDecrypt(s, header, ciphertext, ad);
            Shaped(s', secret) && OpensReceived(s', secret, r, ciphertext)
  {
    var n := header.messageNumber;
    ShapedAdvance(s, secret, n);
    ShapedTakeNext(AdvanceTo(s, n), secret, n, ciphertext, ad);
    assert ChainDecrypt(s, header, ciphertext, ad) == (s, Failure(ReceivingChainNotInitialized))
        || ChainDecrypt(s, header, ciphertext, ad) == TakeNext(AdvanceTo(s, n), n, ciphertext, ad);
  }

  lemma ShapedFinish(s: Session, secret: Key, header: Header, ciphertext: Ciphertext, ad: Bytes)
    requires Shaped(s, secret)
    ensures var (s', r) := Finish(s, header, ciphertext, ad);
            Shaped(s', secret) && OpensReceived(s', secret, r, ciphertext)
  {
    var slot := (header.dhPub, header.messageNumber);
    assert Shaped(s.(skipped := s.skipped - {slot}), secret);
    ShapedChainDecrypt(s.(skipped := s.skipped - {slot}), secret, header, ciphertext, ad);
  }

  lemma ShapedApply(s: Session, secret: Key, c: Call)
    requires Shaped(s, secret)
    ensures Shaped(Apply(s, c), secret)
  {
    if c.Dec? {
      ShapedDhPhase(s, secret, c.header, c.newKey);
      ShapedFinish(DhPhase(s, c.header, c.newKey), secret, c.header, c.ciphertext, c.associatedData);
    } else if s.sendKey.NoKey? && s.peer.Some? {
      ShapedSend(s, secret, c.newKey);
    }
  }

  lemma {:induction false} ShapedAfter(s: Session, secret: Key, calls: seq<Call>)
    requires Shaped(s, secret)
    ensures Shaped(After(s, calls), secret)
    decreases |calls|
  {
    if calls != [] {
      ShapedApply(s, secret, calls[0]);
      ShapedAfter(Apply(s, calls[0]), secret, calls[1..]);
    }
  }

  // ---------------------------------------------------------------- a key that is gone

  /** The chain is another one than that of the message key, or has passed it. */
  ghost predicate Passed(chainKey: Key, key: Key)
    requires key.Msg?
  {
    ChainRank(chainKey) != ChainRank(key.chainKey) || ChainSteps(chainKey) > ChainSteps(key.chainKey)
  }

  ghost predicate Gone(s: Session, key: Key) {
    && key.Msg? && 0 < ChainRank(key.chainKey) <= RootDepth(s.root)
    && Passed(s.sendKey, key) && Passed(s.recvKey, key)
    && (forall slot: Slot | slot in s.skipped :: s.skipped[slot] != key)
  }

  lemma {:induction false} GoneAdvance(s: Session, key: Key, n: nat)
    requires Gone(s, key)
    ensures Gone(AdvanceTo(s, n), key)
    decreases n - s.recvCount
  {
    if s.recvCount < n {
      AdvanceByOne(s, n);
      GoneAdvance(SkipOne(s), key, n);
    }
  }

  lemma GoneDhPhase(s: Session, key: Key, header: Header, newKey: nat)
    requires Gone(s, key)
    ensures Gone(DhPhase(s, header, newKey), key)
  {
    if NeedsRatchet(s, header) {
      GoneAdvance(s, key, header.previousChainLen);
    }
  }

  lemma GoneFinish(s: Session, key: Key, header: Header, ciphertext: Ciphertext, ad: Bytes)
    requires Gone(s, key)
    ensures Gone(Finish(s, header, ciphertext, ad).0, key)
  {
    var s1 := s.(skipped := s.skipped - {(header.dhPub, header.messageNumber)});
    assert Gone(s1, key);
    GoneAdvance(s1, key, header.messageNumber);
  }

  lemma {:induction false} GoneAfter(s: Session, key: Key, calls: seq<Call>)
    requires Gone(s, key)
    ensures Gone(After(s, calls), key)
    decreases |calls|
  {
    if calls != [] {
      var c := calls[0];
      if c.Dec? {
        GoneDhPhase(s, key, c.header, c.newKey);
        GoneFinish(DhPhase(s, c.header, c.newKey), key, c.header, c.ciphertext, c.associatedData);
      }
      GoneAfter(Apply(s, c), key, calls[1..]);
    }
  }

  /** Which keys yield a root key, and which a chain key. */
  lemma {:induction false} YieldsRoot(part: Key, key: Key, secret: Key)
    requires secret.Shared? && IsRoot(key, secret) && Yields(part, key)
    ensures IsRoot(part, secret) && RootDepth(part) <= RootDepth(key)
  {
    if part != key {
      YieldsRoot(part, key.salt, secret);
    }
  }

  lemma {:induction false} YieldsChain(part: Key, key: Key, secret: Key)
    requires secret.Shared? && IsChain(key, secret) && Yields(part, key)
    ensures || (IsRoot(part, secret) && RootDepth(part) < ChainRank(key))
            || (IsChain(part, secret) && ChainRank(part) == ChainRank(key) && ChainSteps(part) <= ChainSteps(key))
  {
    if part != key {
      if key.Chain? {
        YieldsRoot(part, key.salt, secret);
      } else {
        YieldsChain(part, key.chainKey, secret);
      }
    }
  }

  lemma GoneHidden(s: Session, secret: Key, key: Key)
    requires secret.Shared? && Shaped(s, secret) && Gone(s, key) && IsChain(key.chainKey, secret)
    ensures !Derivable(s, key)
  {
    forall part | Yields(part, key)
      ensures part != NoKey && part != s.root && part != s.sendKey && part != s.recvKey
      ensures forall slot: Slot | slot in s.skipped :: part != s.skipped[slot]
    {
      if part != key {
        YieldsChain(part, key.chainKey, secret);
      }
    }
  }

  lemma {:induction false} NilYields(key: Key)
    requires IsNil(key)
    ensures Yields(NoKey, key) && Base(key) == NoKey && ChainRank(key) == 0
  {
    if key.Next? {
      NilYields(key.chainKey);
    }
  }

  lemma {:induction false} ChainBase(key: Key, secret: Key)
    requires secret.Shared? && IsChain(key, secret)
    ensures Base(key) == secret && ChainRank(key) > 0
  {
    if key.Chain? {
      RootBase(key.salt, secret);
    } else {
      ChainBase(key.chainKey, secret);
    }
  }

  lemma {:induction false} RootBase(key: Key, secret: Key)
    requires secret.Shared? && IsRoot(key, secret)
    ensures Base(key) == secret
  {
    if key != secret {
      RootBase(key.salt, secret);
    }
  }

  // ---------------------------------------------------------------- forward secrecy

  lemma StartShaped(s: Session, secret: Key)
    requires StartFrom(s, secret) && secret.Shared?
    ensures Shaped(s, secret) && Start(s)
  {
  }

  /** A message key that has opened a message is gone, if it comes from the secret. */
  lemma OpenedIsGone(s: Session, secret: Key, header: Header, ciphertext: Ciphertext, ad: Bytes, newKey: nat)
    requires secret.Shared? && Shaped(s, secret) && Spent(s, {})
    requires Decrypt(s, header, ciphertext, ad, newKey).1.Success?
    ensures var s' := Decrypt(s, header, ciphertext, ad, newKey).0;
            && ciphertext.Sealed? && ciphertext.key.Msg?
            && (|| IsNil(ciphertext.key.chainKey)
                || (IsChain(ciphertext.key.chainKey, secret) && Gone(s', ciphertext.key)))
  {
    ShapedDhPhase(s, secret, header, newKey);
    ShapedFinish(DhPhase(s, header, newKey), secret, header, ciphertext, ad);
    SpentDecrypt(s, {}, header, ciphertext, ad, newKey);
    if IsChain(ciphertext.key.chainKey, secret) {
      ChainBase(ciphertext.key.chainKey, secret);
      assert ciphertext.key in {} + {ciphertext.key};
    }
  }

  /** Forward secrecy, over any calls: whoever reads the session after a message was opened, and knows every
      DH output, can derive its key exactly if it is not a key from the secret. */
  lemma ForwardSecrecyExactly(s: Session, secret: Key, calls: seq<Call>, i: nat)
    requires StartFrom(s, secret) && secret.Shared? && i < |calls| && Opens(s, calls, i)
    ensures calls[i].ciphertext.Sealed?
    ensures Derivable(After(s, calls), calls[i].ciphertext.key) <==> Base(calls[i].ciphertext.key) != secret
  {
    var c, s1 := calls[i], After(s, calls[..i]);
    StartShaped(s, secret);
    StartRanked(s);
    ShapedAfter(s, secret, calls[..i]);
    SpentAfter(s, {}, calls[..i]);
    OpenedIsGone(s1, secret, c.header, c.ciphertext, c.associatedData, c.newKey);
    if IsNil(c.ciphertext.key.chainKey) {
      NilYields(c.ciphertext.key.chainKey);
    } else {
      ChainBase(c.ciphertext.key.chainKey, secret);
      StaysGone(s, secret, calls, i, c.ciphertext.key);
    }
  }

  lemma StaysGone(s: Session, secret: Key, calls: seq<Call>, i: nat, key: Key)
    requires secret.Shared? && Shaped(s, secret) && i < |calls|
    requires Gone(Apply(After(s, calls[..i]), calls[i]), key) && IsChain(key.chainKey, secret)
    ensures !Derivable(After(s, calls), key)
  {
    GoneAfter(Apply(After(s, calls[..i]), calls[i]), key, calls[i + 1..]);
    AfterBetween(s, calls, i, |calls|);
    assert calls[..|calls|] == calls && calls[i + 1..|calls|] == calls[i + 1..];
    ShapedAfter(s, secret, calls);
    GoneHidden(After(s, calls), secret, key);
  }

  /** The same for the sender: the key of a message is not derivable from the state that it leaves, nor from
      any later one. */
  lemma SenderForgets(s: Session, secret: Key, calls: seq<Call>, i: nat)
    requires StartFrom(s, secret) && secret.Shared? && i < |calls| && SealedWith(s, calls, i).Some?
    ensures !Derivable(After(s, calls), SealedWith(s, calls, i).value)
  {
    var c, s1 := calls[i], After(s, calls[..i]);
    StartShaped(s, secret);
    ShapedAfter(s, secret, calls[..i]);
    SealedIsGone(s1, secret, c.plaintext, c.associatedData, c.newKey);
    StaysGone(s, secret, calls, i, SealedWith(s, calls, i).value);
  }

  lemma SealedIsGone(s: Session, secret: Key, plaintext: Bytes, ad: Bytes, newKey: nat)
    requires secret.Shared? && Shaped(s, secret) && Encrypt(s, plaintext, ad, newKey).Success?
    ensures var (s', m) := Encrypt(s, plaintext, ad, newKey).value;
            && m.ciphertext.Sealed? && Gone(s', m.ciphertext.key)
            && IsChain(m.ciphertext.key.chainKey, secret)
  {
    if s.sendKey.NoKey? {
      ShapedSend(s, secret, newKey);
    }
    var s1 := if s.sendKey.NoKey? then SendRatchet(s, newKey) else s;
    ChainBase(s1.sendKey, secret);
  }
}
