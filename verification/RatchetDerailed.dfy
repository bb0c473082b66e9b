/** A derailed session stays derailed: the DH output of the stale delivery is in every key that the
    receiver derives from then on, and in none that its peer ever derives. */
module RatchetDerailed {
  import opened Wrappers
  import opened Crypto
  import opened Ratchet
  import opened RatchetOnce
  import opened RatchetSession
  import opened RatchetStale

  /** The DH output went into the key. */
  predicate Uses(key: Key, dh: set<nat>) {
    match key
    case Root(salt, d) => d == dh || Uses(salt, dh)
    case Chain(salt, d) => d == dh || Uses(salt, dh)
    case Next(chainKey) => Uses(chainKey, dh)
    case Msg(chainKey) => Uses(chainKey, dh)
    case _ => false
  }

  /** The DH output went into all keys of the session but what is `left` in its cache, or into none of them;
      in the second case the session does not have a private key that yields the output. */
  ghost predicate Stained(s: Session, dh: set<nat>, stained: bool, left: set<Key>) {
    && Uses(s.root, dh) == Uses(s.sendKey, dh) == Uses(s.recvKey, dh) == stained
    && (forall slot: Slot | slot in s.skipped ::
          Uses(s.skipped[slot], dh) == stained || s.skipped[slot] in left)
    && (!stained ==> s.priv !in dh)
  }

  /** The key pair that a call may generate is not one of the two in the DH output. */
  ghost predicate NewTo(calls: seq<Call>, dh: set<nat>) {
    forall i | 0 <= i < |calls| :: calls[i].newKey !in dh
  }

  // ---------------------------------------------------------------- what every call keeps

  lemma {:induction false} StainedAdvance(s: Session, dh: set<nat>, stained: bool, left: set<Key>, n: nat)
    requires Stained(s, dh, stained, left)
    ensures Stained(AdvanceTo(s, n), dh, stained, left)
    decreases n - s.recvCount
  {
    if s.recvCount < n {
      AdvanceByOne(s, n);
      StainedAdvance(SkipOne(s), dh, stained, left, n);
    }
  }

  lemma StainedDhPhase(s: Session, dh: set<nat>, stained: bool, left: set<Key>, header: Header, newKey: nat)
    requires Stained(s, dh, stained, left) && (!stained ==> newKey !in dh)
    ensures Stained(DhPhase(s, header, newKey), dh, stained, left)
  {
    if NeedsRatchet(s, header) {
      StainedAdvance(s, dh, stained, left, header.previousChainLen);
      var s1 := CloseReceivingChain(s, header.previousChainLen);
      StainedOpen(s1, dh, stained, left, header.dhPub.value);
      StainedSend(OpenReceivingChain(s1, header.dhPub.value), dh, stained, left, newKey);
    } else if header.dhPub.Some? && s.peer.None? {
      StainedOpen(s, dh, stained, left, header.dhPub.value);
    }
  }

  lemma StainedOpen(s: Session, dh: set<nat>, stained: bool, left: set<Key>, pub: Pub)
    requires Stained(s, dh, stained, left)
    ensures Stained(OpenReceivingChain(s, pub), dh, stained, left)
  {
    assert s.priv in DH(s.priv, pub);
  }

  lemma StainedSend(s: Session, dh: set<nat>, stained: bool, left: set<Key>, newKey: nat)
    requires Stained(s, dh, stained, left) && s.peer.Some? && (!stained ==> newKey !in dh)
    ensures Stained(SendRatchet(s, newKey), dh, stained, left)
  {
    assert newKey in DH(newKey, s.peer.value);
  }

  /** A message that opens has a key with the stain of the session, or is one of those left. */
  lemma StainedFinish(s: Session, dh: set<nat>, stained: bool, left: set<Key>, header: Header, ciphertext: Ciphertext,
                      ad: Bytes)
    requires Stained(s, dh, stained, left)
    ensures var (s', r) := Finish(s, header, ciphertext, ad);
            && Stained(s', dh, stained, left)
            && (r.Success? ==>
                  ciphertext.Sealed? && (Uses(ciphertext.key, dh) == stained || ciphertext.key in left))
  {
    var s1 := s.(skipped := s.skipped - {(header.dhPub, header.messageNumber)});
    assert Stained(s1, dh, stained, left);
    StainedAdvance(s1, dh, stained, left, header.messageNumber);
  }

  lemma StainedApply(s: Session, dh: set<nat>, stained: bool, left: set<Key>, c: Call)
    requires Stained(s, dh, stained, left) && (!stained ==> c.newKey !in dh)
    ensures Stained(Apply(s, c), dh, stained, left)
  {
    if c.Dec? {
      StainedDhPhase(s, dh, stained, left, c.header, c.newKey);
      StainedFinish(DhPhase(s, c.header, c.newKey), dh, stained, left, c.header, c.ciphertext, c.associatedData);
    } else if s.sendKey.NoKey? && s.peer.Some? {
      StainedSend(s, dh, stained, left, c.newKey);
    }
  }

  lemma {:induction false} StainedAfter(s: Session, dh: set<nat>, stained: bool, left: set<Key>, calls: seq<Call>)
    requires Stained(s, dh, stained, left) && (!stained ==> NewTo(calls, dh))
    ensures Stained(After(s, calls), dh, stained, left)
    decreases |calls|
  {
    if calls != [] {
      StainedApply(s, dh, stained, left, calls[0]);
      StainedAfter(Apply(s, calls[0]), dh, stained, left, calls[1..]);
    }
  }

  /** Over any calls: what opens has the stain of the session or is one of the keys left. */
  lemma OpensStained(s: Session, dh: set<nat>, stained: bool, left: set<Key>, calls: seq<Call>, i: nat)
    requires Stained(s, dh, stained, left) && (!stained ==> NewTo(calls, dh))
    requires i < |calls| && Opens(s, calls, i)
    ensures var c := calls[i].ciphertext;
            c.Sealed? && (Uses(c.key, dh) == stained || c.key in left)
  {
    var c, s' := calls[i], After(s, calls[..i]);
    StainedAfter(s, dh, stained, left, calls[..i]);
    StainedDhPhase(s', dh, stained, left, c.header, c.newKey);
    StainedFinish(DhPhase(s', c.header, c.newKey), dh, stained, left, c.header, c.ciphertext, c.associatedData);
  }

  /** Over any calls: what is sealed has the stain of the session. */
  lemma SealsStained(s: Session, dh: set<nat>, stained: bool, left: set<Key>, calls: seq<Call>, i: nat)
    requires Stained(s, dh, stained, left) && (!stained ==> NewTo(calls, dh))
    requires i < |calls| && SealedWith(s, calls, i).Some?
    ensures Uses(SealedWith(s, calls, i).value, dh) == stained
  {
    var c, s' := calls[i], After(s, calls[..i]);
    StainedAfter(s, dh, stained, left, calls[..i]);
    if s'.sendKey.NoKey? && s'.peer.Some? {
      StainedSend(s', dh, stained, left, c.newKey);
    }
  }

  // ---------------------------------------------------------------- the keys of an orderly run

  /** No root step of the run combined these two key pairs. */
  ghost predicate Unpaired(keys: seq<nat>, dh: set<nat>) {
    forall k | 1 <= k < |keys| :: DH(keys[k], Pub(keys[k - 1])) != dh
  }

  lemma {:induction false} RootUnstained(secret: Key, keys: seq<nat>, k: nat, dh: set<nat>)
    requires secret.Shared? && k < |keys| && Unpaired(keys, dh)
    ensures !Uses(RootAt(secret, keys, k), dh)
  {
    if k > 0 {
      RootUnstained(secret, keys, k - 1, dh);
    }
  }

  lemma {:induction false} KeyAtUses(chainKey: Key, n: nat, dh: set<nat>)
    ensures Uses(KeyAt(chainKey, n), dh) == Uses(chainKey, dh)
  {
    if n > 0 {
      KeyAtUses(chainKey, n - 1, dh);
    }
  }

  lemma ChainUnstained(secret: Key, keys: seq<nat>, c: nat, n: nat, dh: set<nat>)
    requires secret.Shared? && 1 <= c < |keys| && Unpaired(keys, dh)
    ensures !Uses(KeyAt(ChainAt(secret, keys, c), n), dh)
  {
    RootUnstained(secret, keys, c - 1, dh);
    KeyAtUses(ChainAt(secret, keys, c), n, dh);
  }

  /** A party of the run holds no key with the output, if it does not hold one of the two private keys. */
  lemma PartyUnstained(x: Session, secret: Key, keys: seq<nat>, lens: seq<nat>, pos: Pos, dh: set<nat>)
    requires Stays(x, secret, keys, lens, pos) && secret.Shared? && Unpaired(keys, dh) && x.priv !in dh
    ensures Stained(x, dh, false, {})
  {
    RootUnstained(secret, keys, Latest(pos), dh);
    if pos.s > 0 {
      ChainUnstained(secret, keys, pos.s, lens[pos.s], dh);
    }
    if pos.r > 0 {
      ChainUnstained(secret, keys, pos.r, x.recvCount, dh);
    }
    forall slot: Slot | slot in x.skipped
      ensures !Uses(x.skipped[slot], dh)
    {
      var c :| IsSlot(x, secret, keys, pos.r, slot, c);
      ChainUnstained(secret, keys, c, slot.1, dh);
    }
  }

  /** The stale delivery stains the receiver, all but what closing the old chain left in the cache. */
  lemma StaleStains(x: Session, header: Header, ciphertext: Ciphertext, ad: Bytes, newKey: nat)
    requires NeedsRatchet(x, header)
    ensures Stained(Decrypt(x, header, ciphertext, ad, newKey).0, DH(x.priv, header.dhPub.value), true,
                    CloseReceivingChain(x, header.previousChainLen).skipped.Values)
  {
    var dh := DH(x.priv, header.dhPub.value);
    var closed := CloseReceivingChain(x, header.previousChainLen).skipped;
    var x1 := DhPhase(x, header, newKey);
    assert x1.skipped == closed;
    forall slot: Slot | slot in x1.skipped
      ensures x1.skipped[slot] in closed.Values
    {
    }
    assert Stained(x1, dh, true, closed.Values);
    StainedFinish(x1, dh, true, closed.Values, header, ciphertext, ad);
  }

  /** The two key pairs that the stale delivery combines are no two neighbours, and the peer has neither. */
  lemma StaleUnpaired(net: Net, t: Trace, k: nat)
    requires Inv(net, t) && k < |net.log| && !NotStale(net, k)
    ensures var p, h := Receiver(net, k), net.log[k].msg.header;
            && NeedsRatchet(net.Of(p), h)
            && var dh := DH(net.Of(p).priv, h.dhPub.value);
               && Unpaired(net.keys, dh) && net.Of(Peer(p)).priv !in dh
               && (forall id | id in dh :: id in net.keys)
  {
    var p := Receiver(net, k);
    EitherStays(net, t, p);
    assert LogEntry(net, t, k) && GotOk(net, t, p);
    StaleIs(net, t, k);
    KeysApart(net.keys, t.At(p).s, t.chains[k], t.At(Peer(p)).s);
  }

  lemma KeysApart(keys: seq<nat>, s: nat, c: nat, q: nat)
    requires Distinct(keys) && c + 2 <= s < |keys| && q < |keys| && q != s && q != c
    ensures var dh := DH(keys[s], Pub(keys[c]));
            Unpaired(keys, dh) && keys[q] !in dh && forall id | id in dh :: id in keys
  {
    var dh := DH(keys[s], Pub(keys[c]));
    forall k | 1 <= k < |keys|
      ensures DH(keys[k], Pub(keys[k - 1])) != dh
    {
      assert keys[s] in dh && keys[c] in dh;
      assert keys[k] in DH(keys[k], Pub(keys[k - 1]));
    }
  }

  // ---------------------------------------------------------------- for good

  /** A key under which the party sealed a message of the log, or seals one in the calls that follow. */
  ghost predicate SealsWith(net: Net, p: Party, calls: seq<Call>, key: Key) {
    || (exists i :: 0 <= i < |calls| && SealedWith(net.Of(p), calls, i) == Some(key))
    || (exists k :: 0 <= k < |net.log| && net.log[k].sender == p && SealedUnder(net.log[k].msg.ciphertext, key))
  }

  predicate SealedUnder(ciphertext: Ciphertext, key: Key) {
    ciphertext.Sealed? && ciphertext.key == key
  }

  /** The party has no key with the output and gets none, so it seals and opens without it. */
  lemma PeerSeals(net: Net, t: Trace, p: Party, dh: set<nat>, calls: seq<Call>, key: Key)
    requires LogOk(net, t) && Stained(net.Of(p), dh, false, {}) && NewTo(calls, dh)
    requires t.secret.Shared? && Unpaired(net.keys, dh) && SealsWith(net, p, calls, key)
    ensures !Uses(key, dh)
  {
    if i :| 0 <= i < |calls| && SealedWith(net.Of(p), calls, i) == Some(key) {
      SealsStained(net.Of(p), dh, false, {}, calls, i);
    } else {
      var k :| 0 <= k < |net.log| && net.log[k].sender == p && SealedUnder(net.log[k].msg.ciphertext, key);
      assert LogEntry(net, t, k);
      ChainUnstained(t.secret, net.keys, t.chains[k], net.log[k].msg.header.messageNumber, dh);
    }
  }

  /** After a stale delivery in any state of an orderly run, whatever the two parties are then called with:
      nothing that the peer seals or had sealed opens at the receiver, unless under a key that closing the old
      chain left in the cache; and nothing that the receiver seals opens at the peer. */
  lemma DerailedForever(secret: Key, spk: nat, first: nat, ad: Bytes, events: seq<Event>, k: nat, newKey: nat,
                        calls: seq<Call>, peerCalls: seq<Call>)
    requires secret.Shared? && spk != first && OrderlyRun(Begin(secret, spk, first, ad), events)
    requires var net := Reached(Begin(secret, spk, first, ad), events);
             && k < |net.log| && !NotStale(net, k)
             && (forall j | 0 <= j < |peerCalls| :: peerCalls[j].newKey !in net.keys)
    ensures var net := Reached(Begin(secret, spk, first, ad), events);
            var x, x', peer := net.Of(Receiver(net, k)), Delivery(net, k, newKey).0, net.log[k].sender;
            && (forall i, key | 0 <= i < |calls| && Opens(x', calls, i) && SealedUnder(calls[i].ciphertext, key)
                                && SealsWith(net, peer, peerCalls, key) ::
                  key in CloseReceivingChain(x, net.log[k].msg.header.previousChainLen).skipped.Values)
            && (forall i, j | 0 <= i < |calls| && SealedWith(x', calls, i).Some?
                              && 0 <= j < |peerCalls| && Opens(net.Of(peer), peerCalls, j) ::
                  !SealedUnder(peerCalls[j].ciphertext, SealedWith(x', calls, i).value))
  {
    BeginInv(secret, spk, first, ad);
    var t := ReachedInv(Begin(secret, spk, first, ad), Trace(secret, Pos(0, 1), Pos(-1, 0), [0, 0], []), events);
    StaleSilences(Reached(Begin(secret, spk, first, ad), events), t, k, newKey, calls, peerCalls);
  }

  lemma StaleSilences(net: Net, t: Trace, k: nat, newKey: nat, calls: seq<Call>, peerCalls: seq<Call>)
    requires Inv(net, t) && t.secret.Shared? && k < |net.log| && !NotStale(net, k)
    requires forall j | 0 <= j < |peerCalls| :: peerCalls[j].newKey !in net.keys
    ensures var x, x', peer := net.Of(Receiver(net, k)), Delivery(net, k, newKey).0, net.log[k].sender;
            && (forall i, key | 0 <= i < |calls| && Opens(x', calls, i) && SealedUnder(calls[i].ciphertext, key)
                                && SealsWith(net, peer, peerCalls, key) ::
                  key in CloseReceivingChain(x, net.log[k].msg.header.previousChainLen).skipped.Values)
            && (forall i, j | 0 <= i < |calls| && SealedWith(x', calls, i).Some?
                              && 0 <= j < |peerCalls| && Opens(net.Of(peer), peerCalls, j) ::
                  !SealedUnder(peerCalls[j].ciphertext, SealedWith(x', calls, i).value))
  {
    var x, x', peer, e := net.Of(Receiver(net, k)), Delivery(net, k, newKey).0, net.log[k].sender, net.log[k].msg;
    StaleUnpaired(net, t, k);
    var dh := DH(x.priv, e.header.dhPub.value);
    var left := CloseReceivingChain(x, e.header.previousChainLen).skipped.Values;
    StaleStains(x, e.header, e.ciphertext, net.ad, newKey);
    EitherStays(net, t, peer);
    PartyUnstained(net.Of(peer), t.secret, net.keys, t.lens, t.At(peer), dh);
    forall i, key | 0 <= i < |calls| && Opens(x', calls, i) && SealedUnder(calls[i].ciphertext, key)
                    && SealsWith(net, peer, peerCalls, key)
      ensures key in left
    {
      OpensStained(x', dh, true, left, calls, i);
      PeerSeals(net, t, peer, dh, peerCalls, key);
    }
    forall i, j | 0 <= i < |calls| && SealedWith(x', calls, i).Some?
                  && 0 <= j < |peerCalls| && Opens(net.Of(peer), peerCalls, j)
      ensures !SealedUnder(peerCalls[j].ciphertext, SealedWith(x', calls, i).value)
    {
      SealsStained(x', dh, true, left, calls, i);
      OpensStained(net.Of(peer), dh, false, {}, peerCalls, j);
    }
  }
}
