/** Concrete runs of both parties, from fresh sessions on. */
module RatchetExamples {
  import opened Wrappers
  import opened Crypto
  import opened Ratchet
  import opened RatchetSession
  import opened RatchetCache
  import opened RatchetStale

  /** Both ends with the signed prekey 0 and the initiator's first key pair 1. */
  function Fresh(secret: Key): Net {
    Begin(secret, 0, 1, [])
  }

  lemma {:induction false} RunMore(net: Net, run: seq<Event>, e: Event)
    requires OrderlyRun(net, run) && Orderly(Reached(net, run), e)
    ensures OrderlyRun(net, run + [e]) && Reached(net, run + [e]) == Step(Reached(net, run), e)
    decreases |run|
  {
    if run == [] {
      assert run + [e] == [e] && [e][1..] == [];
    } else {
      assert (run + [e])[1..] == run[1..] + [e];
      RunMore(Step(net, run[0]), run[1..], e);
    }
  }

  // ---------------------------------------------------------------- a repeat burns a key

  const FIRST_TWO: seq<Event> := [Send(Alice, [], 9), Send(Alice, [], 9), Deliver(0, 9)]

  /** Alice has sent two messages and the first was delivered. */
  ghost predicate GotFirst(net: Net) {
    && |net.log| == 2 && net.keys == [0, 1] && net.gotAlice == {} && net.gotBob == {0} && net.ad == []
    && (forall k | 0 <= k < 2 :: net.log[k].sender == Alice && net.log[k].msg.header == Header(Some(Pub(1)), 0, k))
    && net.alice.pub == Pub(1) && net.alice.peer == Some(Pub(0)) && net.alice.sendCount == 2
    && net.alice.sendKey.Next? && net.alice.recvKey.NoKey?
    && net.bob.peer == Some(Pub(1)) && net.bob.sendKey.NoKey? && net.bob.sendCount == 0
    && net.bob.recvCount == 1 && net.bob.recvKey.Next? && net.bob.skipped == map[]
  }

  lemma FirstOfTwo(secret: Key)
    ensures OrderlyRun(Fresh(secret), FIRST_TWO) && GotFirst(Reached(Fresh(secret), FIRST_TWO))
  {
    var n0 := Fresh(secret);
    assert Reached(n0, []) == n0;
    RunMore(n0, [], FIRST_TWO[0]);
    RunMore(n0, [] + [FIRST_TWO[0]], FIRST_TWO[1]);
    RunMore(n0, [] + [FIRST_TWO[0]] + [FIRST_TWO[1]], FIRST_TWO[2]);
    assert FIRST_TWO == [] + [FIRST_TWO[0]] + [FIRST_TWO[1]] + [FIRST_TWO[2]];
  }

  /** The second message decrypts; after the first one is repeated it does not, although it was never
      delivered: the repeat took its key. */
  lemma RepeatBurns(secret: Key)
    ensures OrderlyRun(Fresh(secret), FIRST_TWO)
    ensures var net := Reached(Fresh(secret), FIRST_TWO);
            && |net.log| == 2 && Orderly(net, Deliver(0, 9))
            && Delivery(net, 1, 9).1 == Success(net.log[1].plaintext)
            && DeliverBoth(net, 0, 1, 9, 10) == Failure(DecryptionFailed)
            && LostBy(net.bob, net.log[0].msg.header, 9) == {(Some(Pub(1)), 1)}
  {
    FirstOfTwo(secret);
    var net := Reached(Fresh(secret), FIRST_TWO);
    StaleDerailsExactly(secret, 0, 1, [], FIRST_TWO, 0, 1, 9, 10);
    OrderlyDelivery(secret, FIRST_TWO, 1, 9);
    RepeatLoses(net);
  }

  lemma RepeatLoses(net: Net)
    requires GotFirst(net)
    ensures LostBy(net.bob, net.log[0].msg.header, 9) == {(Some(Pub(1)), 1)}
    ensures !OpensAfter(net, 0, 1, 9) && KeyAvailable(net.bob, net.log[1].msg.header)
  {
    assert Dropped(net.bob, 0) == {};
  }

  /** What the next delivery of an orderly run yields. */
  lemma OrderlyDelivery(secret: Key, events: seq<Event>, k: nat, newKey: nat)
    requires OrderlyRun(Fresh(secret), events) && Orderly(Reached(Fresh(secret), events), Deliver(k, newKey))
    ensures var net := Reached(Fresh(secret), events);
            Delivery(net, k, newKey).1
            == if KeyAvailable(net.Of(Receiver(net, k)), net.log[k].msg.header)
               then Success(net.log[k].plaintext) else Failure(DecryptionFailed)
  {
    BeginInv(secret, 0, 1, []);
    var t := ReachedInv(Fresh(secret), Trace(secret, Pos(0, 1), Pos(-1, 0), [0, 0], []), events);
    DeliverInv(Reached(Fresh(secret), events), t, Deliver(k, newKey));
  }

  // ---------------------------------------------------------------- a late message derails

  /** Bob answers, Alice gets the answer, sends two messages on her next chain, and Bob gets the first. */
  const ANSWER: seq<Event> := [Send(Bob, [], 2), Deliver(2, 3)]

  const NEXT_TWO: seq<Event> := [Send(Alice, [], 9), Send(Alice, [], 9), Deliver(3, 4)]

  ghost predicate GotAnswer(net: Net) {
    && |net.log| == 3 && net.keys == [0, 1, 2, 3] && net.gotBob == {0} && net.ad == []
    && (forall k | 0 <= k < 2 :: net.log[k].sender == Alice && net.log[k].msg.header == Header(Some(Pub(1)), 0, k))
    && net.log[2].sender == Bob
    && net.alice.pub == Pub(3) && net.alice.previousLen == 2 && net.alice.sendCount == 0 && net.alice.sendKey.Chain?
    && net.bob.peer == Some(Pub(1)) && net.bob.recvCount == 1 && net.bob.recvKey.Next? && net.bob.skipped == map[]
  }

  lemma AnswerReached(net: Net)
    requires GotFirst(net)
    ensures OrderlyRun(net, ANSWER) && GotAnswer(Reached(net, ANSWER))
  {
    assert Reached(net, []) == net;
    RunMore(net, [], ANSWER[0]);
    RunMore(net, [] + [ANSWER[0]], ANSWER[1]);
    assert ANSWER == [] + [ANSWER[0]] + [ANSWER[1]];
  }

  /** Alice's second message is on the way, with its key cached; so is the second one of her next chain,
      whose first one Bob got. */
  ghost predicate GotThird(net: Net) {
    && |net.log| == 5 && net.keys == [0, 1, 2, 3, 4] && net.gotBob == {0, 3}
    && (forall k | 0 <= k < 2 :: net.log[k].sender == Alice && net.log[k].msg.header == Header(Some(Pub(1)), 0, k))
    && (forall k | 3 <= k < 5 :: net.log[k].sender == Alice && net.log[k].msg.header == Header(Some(Pub(3)), 2, k - 3))
    && net.bob.peer == Some(Pub(3)) && net.bob.recvCount == 1 && net.bob.skipped.Keys == {(Some(Pub(1)), 1)}
  }

  lemma TwoSent(net: Net)
    requires GotAnswer(net)
    ensures OrderlyRun(net, NEXT_TWO[..2])
    ensures var net' := Reached(net, NEXT_TWO[..2]);
            && |net'.log| == 5 && net'.log[..3] == net.log && net'.keys == net.keys && net'.gotBob == {0}
            && net'.bob == net.bob && net'.ad == net.ad
            && (forall k | 3 <= k < 5 ::
                  net'.log[k].sender == Alice && net'.log[k].msg.header == Header(Some(Pub(3)), 2, k - 3))
  {
    assert Reached(net, []) == net;
    RunMore(net, [], NEXT_TWO[0]);
    RunMore(net, [] + [NEXT_TWO[0]], NEXT_TWO[1]);
    assert NEXT_TWO[..2] == [] + [NEXT_TWO[0]] + [NEXT_TWO[1]];
  }

  lemma ThirdReached(net: Net)
    requires GotAnswer(net)
    ensures OrderlyRun(net, NEXT_TWO) && GotThird(Reached(net, NEXT_TWO))
  {
    TwoSent(net);
    var net' := Reached(net, NEXT_TWO[..2]);
    assert forall k | 0 <= k < 3 :: net'.log[k] == net'.log[..3][k];
    RunMore(net, NEXT_TWO[..2], NEXT_TWO[2]);
    assert NEXT_TWO == NEXT_TWO[..2] + [NEXT_TWO[2]];
    ThirdDelivered(net');
  }

  lemma ThirdDelivered(net: Net)
    requires |net.log| == 5 && net.keys == [0, 1, 2, 3] && net.gotBob == {0} && net.ad == []
    requires net.log[3].sender == Alice && net.log[3].msg.header == Header(Some(Pub(3)), 2, 0)
    requires net.bob.peer == Some(Pub(1)) && net.bob.recvCount == 1 && net.bob.recvKey.Next?
    requires net.bob.skipped == map[]
    ensures var net' := Step(net, NEXT_TWO[2]);
            && net'.log == net.log && net'.keys == [0, 1, 2, 3, 4] && net'.gotBob == {0, 3}
            && net'.bob.peer == Some(Pub(3)) && net'.bob.recvCount == 1
            && net'.bob.skipped.Keys == {(Some(Pub(1)), 1)}
  {
    NextChain(net.bob, net.log[3].msg.ciphertext);
  }

  /** The first message of the next chain: closing the old one caches its second key. */
  lemma NextChain(x: Session, ciphertext: Ciphertext)
    requires x.peer == Some(Pub(1)) && x.recvCount == 1 && x.recvKey.Next? && x.skipped == map[]
    ensures var x' := Decrypt(x, Header(Some(Pub(3)), 2, 0), ciphertext, [], 4).0;
            x'.peer == Some(Pub(3)) && x'.recvCount == 1 && x'.skipped.Keys == {(Some(Pub(1)), 1)}
  {
    var slot: Slot := (Some(Pub(1)), 1);
    assert CloseReceivingChain(x, 2).skipped == map[slot := Msg(x.recvKey)];
  }

  lemma {:induction false} RunThenRun(net: Net, run: seq<Event>, more: seq<Event>)
    requires OrderlyRun(net, run) && OrderlyRun(Reached(net, run), more)
    ensures OrderlyRun(net, run + more) && Reached(net, run + more) == Reached(Reached(net, run), more)
    decreases |run|
  {
    if run == [] {
      assert run + more == more;
    } else {
      assert (run + more)[1..] == run[1..] + more;
      RunThenRun(Step(net, run[0]), run[1..], more);
    }
  }

  /** That state is reached from fresh sessions. */
  lemma ExampleBobReached(secret: Key)
    ensures OrderlyRun(Fresh(secret), FIRST_TWO + ANSWER + NEXT_TWO)
    ensures GotThird(Reached(Fresh(secret), FIRST_TWO + ANSWER + NEXT_TWO))
  {
    FirstOfTwo(secret);
    AnswerReached(Reached(Fresh(secret), FIRST_TWO));
    RunThenRun(Fresh(secret), FIRST_TWO, ANSWER);
    ThirdReached(Reached(Fresh(secret), FIRST_TWO + ANSWER));
    RunThenRun(Fresh(secret), FIRST_TWO + ANSWER, NEXT_TWO);
  }

  /** There Alice's newest message decrypts; after her late one is delivered, which decrypts from the
      cache, it does not. */
  lemma LateMessageDerails(secret: Key)
    ensures OrderlyRun(Fresh(secret), FIRST_TWO + ANSWER + NEXT_TWO)
    ensures var net := Reached(Fresh(secret), FIRST_TWO + ANSWER + NEXT_TWO);
            && |net.log| == 5
            && Delivery(net, 4, 9).1 == Success(net.log[4].plaintext)
            && Delivery(net, 1, 9).1 == Success(net.log[1].plaintext)
            && DeliverBoth(net, 1, 4, 9, 10) == Failure(DecryptionFailed)
  {
    var run := FIRST_TWO + ANSWER + NEXT_TWO;
    ExampleBobReached(secret);
    var net := Reached(Fresh(secret), run);
    OrderlyDelivery(secret, run, 4, 9);
    StaleDerailsExactly(secret, 0, 1, [], run, 1, 4, 9, 10);
    assert 3 in net.Got(Bob);
    StaleOpensExactly(secret, 0, 1, [], run, 1, 9);
  }
}
