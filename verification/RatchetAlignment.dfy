/** How the two ends of a session agree in every state of a run. */
module RatchetAlignment {
  import opened Wrappers
  import opened Crypto
  import opened Ratchet
  import opened RatchetSession
  import opened RatchetCareful
  import X3DH

  /** One of the parties is behind by the one root step that its next message from the other causes,
      or neither is. */
  ghost predicate RootsAgree(a: Session, b: Session) {
    || a.root == b.root
    || a.root == Root(b.root, DH(b.priv, a.pub))
    || b.root == Root(a.root, DH(a.priv, b.pub))
  }

  /** The receiver `x` is on the chain that `y` sends on: its chain key leads to the sender's. */
  ghost predicate ChainsAgree(x: Session, y: Session) {
    x.peer == Some(y.pub) && !y.sendKey.NoKey? && !x.recvKey.NoKey? ==>
      x.recvCount <= y.sendCount && KeyAt(x.recvKey, y.sendCount - x.recvCount) == y.sendKey
  }

  /** The receiver `x` has not seen the chain that `y` sends on: closing its own chain at the length
      that `y` advertises ends it exactly there. */
  ghost predicate LengthsAgree(x: Session, y: Session) {
    x.peer.Some? && x.peer != Some(y.pub) && !y.sendKey.NoKey? && !x.recvKey.NoKey? ==>
      x.recvCount <= y.previousLen && CloseReceivingChain(x, y.previousLen).recvCount == y.previousLen
  }

  ghost predicate Aligned(net: Net) {
    && RootsAgree(net.alice, net.bob)
    && ChainsAgree(net.alice, net.bob) && ChainsAgree(net.bob, net.alice)
    && LengthsAgree(net.alice, net.bob) && LengthsAgree(net.bob, net.alice)
  }

  lemma RootsAt(net: Net, t: Trace)
    requires Frame(net, t)
    requires Placed(net.alice, t.secret, net.keys, t.lens, t.alice)
             && Placed(net.bob, t.secret, net.keys, t.lens, t.bob)
    ensures RootsAgree(net.alice, net.bob)
  {
    var a, b := Latest(t.alice), Latest(t.bob);
    if a == b + 1 {
      assert net.alice.root == Root(RootAt(t.secret, net.keys, b), DH(net.keys[a], Pub(net.keys[b])));
      assert DH(net.keys[a], Pub(net.keys[b])) == DH(net.bob.priv, net.alice.pub);
    } else if b == a + 1 {
      assert net.bob.root == Root(RootAt(t.secret, net.keys, a), DH(net.keys[b], Pub(net.keys[a])));
      assert DH(net.keys[b], Pub(net.keys[a])) == DH(net.alice.priv, net.bob.pub);
    }
  }

  lemma ChainsAt(x: Session, y: Session, secret: Key, keys: seq<nat>, lens: seq<nat>, p: Pos, q: Pos)
    requires Placed(x, secret, keys, lens, p) && Placed(y, secret, keys, lens, q) && Distinct(keys)
    requires p.r >= 1 ==> x.recvCount <= lens[p.r]
    ensures ChainsAgree(x, y)
  {
    if x.peer == Some(y.pub) && !y.sendKey.NoKey? && !x.recvKey.NoKey? {
      assert p.r == q.s;
      KeyAtSum(ChainAt(secret, keys, p.r), x.recvCount, y.sendCount - x.recvCount);
    }
  }

  lemma LengthsAt(x: Session, y: Session, secret: Key, keys: seq<nat>, lens: seq<nat>, p: Pos, q: Pos)
    requires Placed(x, secret, keys, lens, p) && Placed(y, secret, keys, lens, q) && Distinct(keys)
    requires p.r >= 1 ==> x.recvCount <= lens[p.r]
    requires q.s == p.r || q.s == p.r + 2
    ensures LengthsAgree(x, y)
  {
  }

  lemma AlignedAt(net: Net, t: Trace)
    requires CarefulInv(net, t)
    ensures Aligned(net)
  {
    var a, b := net.alice, net.bob;
    assert StaysAt(net, t, Alice) && StaysAt(net, t, Bob);
    assert CountedBy(net, t, Alice) && CountedBy(net, t, Bob);
    RootsAt(net, t);
    ChainsAt(a, b, t.secret, net.keys, t.lens, t.alice, t.bob);
    ChainsAt(b, a, t.secret, net.keys, t.lens, t.bob, t.alice);
    LengthsAt(a, b, t.secret, net.keys, t.lens, t.alice, t.bob);
    LengthsAt(b, a, t.secret, net.keys, t.lens, t.bob, t.alice);
  }

  /** Root-chain alignment: in every state of a careful run the ends are at most one root step apart,
      a receiving chain leads to the peer's sending chain, and a chain is closed at its true length. */
  lemma CarefulRunsAlign(secret: Key, spk: nat, first: nat, ad: Bytes, events: seq<Event>)
    requires spk != first && CarefulRun(Begin(secret, spk, first, ad), events)
    ensures Aligned(Final(Begin(secret, spk, first, ad), events))
  {
    BeginInv(secret, spk, first, ad);
    var t := FinalInv(Begin(secret, spk, first, ad), Trace(secret, Pos(0, 1), Pos(-1, 0), [0, 0], []), events);
    AlignedAt(Final(Begin(secret, spk, first, ad), events), t);
  }

  /** Two sessions as the key agreement makes them, with or without a one-time prekey `opk`; `encode`
      says how associated data become bytes. */
  function Agreed(ikA: nat, ikB: nat, spk: nat, opk: Option<nat>, ek: nat, first: nat, encode: ((Pub, Pub)) -> Bytes)
    : Net
  {
    var a := X3DH.Initiator(ikA, Pub(ikB), Pub(spk), X3DH.PublicOf(opk), ek);
    var b := X3DH.Responder(ikB, spk, opk, Pub(ikA), Pub(ek));
    Net(InitiatorSession(a.sharedSecret, Pub(spk), first), ResponderSession(b.sharedSecret, spk),
        encode(b.associatedData), [], [spk, first], {}, {})
  }

  /** From the key agreement on, on every careful schedule: every delivered message decrypts to what was
      encrypted, and in the last state the two ends are aligned and their caches exact. */
  lemma AgreedSessionsWork(ikA: nat, ikB: nat, spk: nat, opk: Option<nat>, ek: nat, first: nat,
                           encode: ((Pub, Pub)) -> Bytes, events: seq<Event>)
    requires spk != first && CarefulRun(Agreed(ikA, ikB, spk, opk, ek, first, encode), events)
    ensures AllDecrypt(Agreed(ikA, ikB, spk, opk, ek, first, encode), events)
    ensures var net := Final(Agreed(ikA, ikB, spk, opk, ek, first, encode), events);
            Aligned(net) && CacheExact(net)
  {
    X3DH.SecretsAgree(ikA, Pub(ikB), Pub(spk), X3DH.PublicOf(opk), ek, ikB, spk, opk, Pub(ikA), Pub(ek));
    var secret := X3DH.Initiator(ikA, Pub(ikB), Pub(spk), X3DH.PublicOf(opk), ek).sharedSecret;
    var ad := encode(X3DH.Responder(ikB, spk, opk, Pub(ikA), Pub(ek)).associatedData);
    assert Agreed(ikA, ikB, spk, opk, ek, first, encode) == Begin(secret, spk, first, ad);
    CarefulRunsDecrypt(secret, spk, first, ad, events);
    CarefulRunsAlign(secret, spk, first, ad, events);
    CacheIsExact(secret, spk, first, ad, events);
  }
}
