/** What a decryption answers: a plaintext only if the ciphertext seals it for this very call. */
module RatchetAnswers {
  import opened Wrappers
  import opened Crypto
  import opened Ratchet
  import opened RatchetSession
  import opened RatchetOnce
  import opened RatchetLimits
  import opened RatchetStale

  // ---------------------------------------------------------------- any call

  /** The ciphertext seals the plaintext with this associated data, under the nonce that its key has for
      this message number. */
  predicate SealsFor(ciphertext: Ciphertext, n: nat, ad: Bytes, plaintext: Bytes) {
    && ciphertext.Sealed? && ciphertext.plaintext == plaintext && ciphertext.associatedData == ad
    && ciphertext.nonce.messageKey == ciphertext.key && ciphertext.nonce.counter == n
  }

  lemma ChainAnswers(s: Session, header: Header, ciphertext: Ciphertext, ad: Bytes)
    ensures var r := ChainDecrypt(s, header, ciphertext, ad).1;
            r.Success? ==> SealsFor(ciphertext, header.messageNumber, ad, r.value)
  {
  }

  /** From any state, whatever the header and the ciphertext: what a call returns was sealed with the
      associated data of the call, for the message number of the header. */
  lemma OpensWhatWasSealed(s: Session, header: Header, ciphertext: Ciphertext, ad: Bytes, newKey: nat)
    ensures var r := Decrypt(s, header, ciphertext, ad, newKey).1;
            r.Success? ==> SealsFor(ciphertext, header.messageNumber, ad, r.value)
  {
    var x := DhPhase(s, header, newKey);
    ChainAnswers(x.(skipped := x.skipped - {(header.dhPub, header.messageNumber)}), header, ciphertext, ad);
  }

  /** What a session sealed opens under its own header's number and its own associated data only, at any
      session and after any calls there. */
  lemma OpensAsSealed(s: Session, calls: seq<Call>, i: nat, s': Session, calls': seq<Call>, header: Header,
                      ad: Bytes, newKey: nat)
    requires i < |calls| && calls[i].Enc?
    requires Encrypt(After(s, calls[..i]), calls[i].plaintext, calls[i].associatedData, calls[i].newKey).Success?
    ensures var c := calls[i];
            var m := Encrypt(After(s, calls[..i]), c.plaintext, c.associatedData, c.newKey).value.1;
            var r := Decrypt(After(s', calls'), header, m.ciphertext, ad, newKey).1;
            r.Success? ==>
              ad == c.associatedData && r.value == c.plaintext && header.messageNumber == m.header.messageNumber
  {
    var c := calls[i];
    var m := Encrypt(After(s, calls[..i]), c.plaintext, c.associatedData, c.newKey).value.1;
    OpensWhatWasSealed(After(s', calls'), header, m.ciphertext, ad, newKey);
  }

  /** Encryption fails exactly if there is neither a sending chain nor a peer key to make one with. */
  lemma EncryptRefusesExactly(s: Session, plaintext: Bytes, ad: Bytes, newKey: nat)
    ensures Encrypt(s, plaintext, ad, newKey) == Failure(NoReceivingKey) <==> s.sendKey.NoKey? && s.peer.None?
    ensures Encrypt(s, plaintext, ad, newKey).Success? <==> !s.sendKey.NoKey? || s.peer.Some?
  {
  }

  /** After any calls, a decryption reports a missing chain exactly if the DH step opens none, there is none,
      and the message is not number 0. */
  lemma MissingChainExactly(s: Session, secret: Key, calls: seq<Call>, header: Header, ciphertext: Ciphertext,
                            ad: Bytes, newKey: nat)
    requires StartFrom(s, secret)
    ensures var x := After(s, calls);
            Decrypt(x, header, ciphertext, ad, newKey).1 == Failure(ReceivingChainNotInitialized)
            <==> !OpensChain(x, header) && x.recvKey.NoKey? && header.messageNumber > 0
  {
    StartBase(s, secret);
    RunRooted(s, Base(secret), calls);
    var x := After(s, calls);
    AfterDh(x, header, newKey);
    var x1 := DhPhase(x, header, newKey);
    assert x1.recvKey.NoKey? ==> x1 == x && x.skipped == map[];
    assert x.skipped == map[] ==> x.skipped - {(header.dhPub, header.messageNumber)} == map[];
  }

  lemma StartBase(s: Session, secret: Key)
    requires StartFrom(s, secret)
    ensures Rooted(s, Base(secret))
  {
  }

  // ---------------------------------------------------------------- orderly runs

  /** Message `k` of the log under some associated data. */
  function DeliveryUnder(net: Net, k: nat, ad: Bytes, newKey: nat): Result<Bytes, Error>
    requires k < |net.log|
  {
    var m := net.log[k].msg;
    Decrypt(net.Of(Receiver(net, k)), m.header, m.ciphertext, ad, newKey).1
  }

  lemma OtherDataFails(x: Session, header: Header, ciphertext: Ciphertext, ad: Bytes, newKey: nat)
    requires ciphertext.Sealed? && ciphertext.associatedData != ad
    requires OpensChain(x, header) || !x.recvKey.NoKey?
    ensures Decrypt(x, header, ciphertext, ad, newKey).1 == Failure(DecryptionFailed)
  {
    OpensWhatWasSealed(x, header, ciphertext, ad, newKey);
    AfterDh(x, header, newKey);
  }

  /** In every state of an orderly run a message decrypts, to what its sender encrypted, exactly if it comes
      with the associated data of the session and the receiver still has its key. A message of an older
      chain, and one under other associated data, never gives anything else. */
  lemma DeliveredExactly(secret: Key, spk: nat, first: nat, ad: Bytes, events: seq<Event>, k: nat, ad': Bytes,
                         newKey: nat)
    requires spk != first && OrderlyRun(Begin(secret, spk, first, ad), events)
    requires var net := Reached(Begin(secret, spk, first, ad), events);
             k < |net.log| && newKey !in net.keys
    ensures var net := Reached(Begin(secret, spk, first, ad), events);
            var available := if NotStale(net, k) then KeyAvailable(net.Of(Receiver(net, k)), net.log[k].msg.header)
                             else (net.log[k].msg.header.dhPub, net.log[k].msg.header.messageNumber)
                                  in net.Of(Receiver(net, k)).skipped;
            DeliveryUnder(net, k, ad', newKey)
            == if ad' == ad && available then Success(net.log[k].plaintext) else Failure(DecryptionFailed)
  {
    BeginInv(secret, spk, first, ad);
    var net := Reached(Begin(secret, spk, first, ad), events);
    var t := ReachedInv(Begin(secret, spk, first, ad), Trace(secret, Pos(0, 1), Pos(-1, 0), [0, 0], []), events);
    SameData(Begin(secret, spk, first, ad), events);
    if ad' != ad {
      UnderOther(net, t, k, ad', newKey);
    } else if NotStale(net, k) {
      StepInv(net, t, Deliver(k, newKey));
    } else {
      StaleOpensExactly(secret, spk, first, ad, events, k, newKey);
    }
  }

  lemma UnderOther(net: Net, t: Trace, k: nat, ad: Bytes, newKey: nat)
    requires Inv(net, t) && k < |net.log| && ad != net.ad
    ensures DeliveryUnder(net, k, ad, newKey) == Failure(DecryptionFailed)
  {
    var p := Receiver(net, k);
    EitherStays(net, t, p);
    Standing(net, t, k);
    assert LogEntry(net, t, k);
    OtherDataFails(net.Of(p), net.log[k].msg.header, net.log[k].msg.ciphertext, ad, newKey);
  }

  lemma {:induction false} SameData(net: Net, events: seq<Event>)
    requires OrderlyRun(net, events)
    ensures Reached(net, events).ad == net.ad
    decreases |events|
  {
    if events != [] {
      SameData(Step(net, events[0]), events[1..]);
    }
  }
}
