/** Two parties that hold the two ends of a session, and the messages between them.
    Chain `c` is the one opened by `keys[c]`: Alice sends on the odd chains, Bob on the even ones,
    and chain 0 stands for Bob's signed prekey, on which nothing is sent. */
module RatchetSession {
  import opened Wrappers
  import opened Crypto
  import opened Ratchet

  datatype Party = Alice | Bob

  function Peer(p: Party): Party {
    if p == Alice then Bob else Alice
  }

  datatype Sent = Sent(sender: Party, msg: EncryptedMessage, plaintext: Bytes)

  /** `keys` are the ratchet key pairs in the order they were generated, the signed prekey first;
      `gotAlice` and `gotBob` say which messages of the log were delivered. */
  datatype Net = Net(alice: Session, bob: Session, ad: Bytes, log: seq<Sent>, keys: seq<nat>,
                     gotAlice: set<nat>, gotBob: set<nat>)
  {
    function Of(p: Party): Session {
      if p == Alice then alice else bob
    }

    function Got(p: Party): set<nat> {
      if p == Alice then gotAlice else gotBob
    }

    function With(p: Party, s: Session): Net {
      if p == Alice then this.(alice := s) else this.(bob := s)
    }

    function Mark(p: Party, k: nat): Net {
      if p == Alice then this.(gotAlice := gotAlice + {k}) else this.(gotBob := gotBob + {k})
    }
  }

  /** `newKey` is the key pair that the party generates if the call makes it generate one. */
  datatype Event =
    | Send(p: Party, plaintext: Bytes, newKey: nat)
    | Deliver(k: nat, newKey: nat)

  predicate Possible(net: Net, e: Event) {
    e.Deliver? ==> e.k < |net.log|
  }

  function Receiver(net: Net, k: nat): Party
    requires k < |net.log|
  {
    Peer(net.log[k].sender)
  }

  function Delivery(net: Net, k: nat, newKey: nat): (Session, Result<Bytes, Error>)
    requires k < |net.log|
  {
    var m := net.log[k].msg;
    Decrypt(net.Of(Receiver(net, k)), m.header, m.ciphertext, net.ad, newKey)
  }

  function Step(net: Net, e: Event): Net
    requires Possible(net, e)
  {
    match e
    case Send(p, plaintext, newKey) =>
      (match Encrypt(net.Of(p), plaintext, net.ad, newKey)
       case Success((s, m)) =>
         net.With(p, s).(log := net.log + [Sent(p, m, plaintext)],
                         keys := if net.Of(p).sendKey.NoKey? then net.keys + [newKey] else net.keys)
       case Failure(_) => net)
    case Deliver(k, newKey) =>
      var p := Receiver(net, k);
      net.With(p, Delivery(net, k, newKey).0).Mark(p, k)
         .(keys := if NeedsRatchet(net.Of(p), net.log[k].msg.header) then net.keys + [newKey] else net.keys)
  }

  /** Both ends right after X3DH. */
  function Begin(secret: Key, spk: nat, first: nat, ad: Bytes): Net {
    Net(InitiatorSession(secret, Pub(spk), first), ResponderSession(secret, spk), ad, [], [spk, first], {}, {})
  }

  // ---------------------------------------------------------------- schedules

  /** No message of a newer chain of the same sender was delivered before message `k`. */
  ghost predicate NotStale(net: Net, k: nat)
    requires k < |net.log|
  {
    forall j | j in net.Got(Receiver(net, k)) && k < j < |net.log| ::
      net.log[j].msg.header.dhPub == net.log[k].msg.header.dhPub
  }

  /** The event may happen on a schedule without stale deliveries: messages may still be lost,
      reordered inside a chain and delivered again. */
  ghost predicate Orderly(net: Net, e: Event) {
    && Possible(net, e)
    && e.newKey !in net.keys
    && (e.Deliver? ==> NotStale(net, e.k))
  }

  /** The number of keys that the delivery of this header makes the receiver skip. */
  function Skips(s: Session, header: Header): nat {
    if header.dhPub == s.peer then
      if header.messageNumber > s.recvCount then header.messageNumber - s.recvCount else 0
    else
      header.messageNumber
      + (if !s.recvKey.NoKey? && header.previousChainLen > s.recvCount then header.previousChainLen - s.recvCount
         else 0)
  }

  /** Besides, no message is delivered twice and nothing is skipped into a full cache. */
  ghost predicate Careful(net: Net, e: Event) {
    && Orderly(net, e)
    && (e.Deliver? ==>
          var s := net.Of(Receiver(net, e.k));
          && e.k !in net.Got(Receiver(net, e.k))
          && |s.skipped| + Skips(s, net.log[e.k].msg.header) <= MAX_SKIPPED_KEYS)
  }

  ghost predicate OrderlyRun(net: Net, events: seq<Event>)
    decreases |events|
  {
    events == [] || (Orderly(net, events[0]) && OrderlyRun(Step(net, events[0]), events[1..]))
  }

  ghost predicate CarefulRun(net: Net, events: seq<Event>)
    decreases |events|
  {
    events == [] || (Careful(net, events[0]) && CarefulRun(Step(net, events[0]), events[1..]))
  }

  /** Every delivery of the run yields the plaintext that the sender encrypted. */
  ghost predicate AllDecrypt(net: Net, events: seq<Event>)
    decreases |events|
  {
    events == [] ||
    var e := events[0];
    && Possible(net, e)
    && (e.Deliver? ==> Delivery(net, e.k, e.newKey).1 == Success(net.log[e.k].plaintext))
    && AllDecrypt(Step(net, e), events[1..])
  }

  /** The receiver still has the key: the message is of a new chain, or ahead of the count, or cached. */
  predicate KeyAvailable(s: Session, header: Header) {
    || header.dhPub != s.peer
    || header.messageNumber >= s.recvCount
    || (header.dhPub, header.messageNumber) in s.skipped
  }

  /** Every delivery of the run yields that plaintext exactly when the receiver still has its key. */
  ghost predicate DecryptWhenAvailable(net: Net, events: seq<Event>)
    decreases |events|
  {
    events == [] ||
    var e := events[0];
    && Possible(net, e)
    && (e.Deliver? ==>
          Delivery(net, e.k, e.newKey).1
          == if KeyAvailable(net.Of(Receiver(net, e.k)), net.log[e.k].msg.header)
             then Success(net.log[e.k].plaintext) else Failure(DecryptionFailed))
    && DecryptWhenAvailable(Step(net, e), events[1..])
  }

  // ---------------------------------------------------------------- the chains of a run

  function RootAt(secret: Key, keys: seq<nat>, k: nat): Key
    requires k < |keys|
  {
    if k == 0 then secret else Root(RootAt(secret, keys, k - 1), DH(keys[k], Pub(keys[k - 1])))
  }

  function ChainAt(secret: Key, keys: seq<nat>, k: nat): Key
    requires 1 <= k < |keys|
  {
    Chain(RootAt(secret, keys, k - 1), DH(keys[k], Pub(keys[k - 1])))
  }

  function SlotKey(secret: Key, keys: seq<nat>, c: nat, i: nat): Key
    requires 1 <= c < |keys|
  {
    Msg(KeyAt(ChainAt(secret, keys, c), i))
  }

  function PreviousLen(lens: seq<nat>, c: nat): nat
    requires c < |lens|
  {
    if c >= 2 then lens[c - 2] else 0
  }

  /** What the sender of chain `c` makes of its message `i`. */
  function Honest(secret: Key, keys: seq<nat>, lens: seq<nat>, c: nat, i: nat, ad: Bytes, plaintext: Bytes)
    : EncryptedMessage
    requires 1 <= c < |keys| == |lens|
  {
    var key := SlotKey(secret, keys, c, i);
    EncryptedMessage(Header(Some(Pub(keys[c])), PreviousLen(lens, c), i),
                     Sealed(key, Nonce(key, i), ad, plaintext), Nonce(key, i))
  }

  lemma {:induction false} RootAtPrefix(secret: Key, keys: seq<nat>, newKey: nat, k: nat)
    requires k < |keys|
    ensures RootAt(secret, keys + [newKey], k) == RootAt(secret, keys, k)
  {
    if k > 0 {
      RootAtPrefix(secret, keys, newKey, k - 1);
    }
  }

  lemma {:induction false} KeyAtInjective(chainKey: Key, i: nat, j: nat)
    requires chainKey.Chain? && KeyAt(chainKey, i) == KeyAt(chainKey, j)
    ensures i == j
  {
    if i > 0 && j > 0 {
      KeyAtInjective(chainKey, i - 1, j - 1);
    }
  }

  /** Where a party is: it receives on chain `r` (none yet if -1, none possible if 0) and sends on
      chain `s` (none yet if 0). */
  datatype Pos = Pos(r: int, s: nat)

  ghost predicate PosOk(pos: Pos) {
    pos.r >= -1 && (pos.s == pos.r + 1 || (pos.s == 0 && pos.r == 1))
  }

  function Latest(pos: Pos): nat {
    if pos.r > pos.s then pos.r else pos.s
  }

  /** The session holds the keys and counts of that place. */
  ghost predicate Placed(x: Session, secret: Key, keys: seq<nat>, lens: seq<nat>, pos: Pos) {
    && PosOk(pos) && Latest(pos) < |keys| == |lens|
    && x.priv == keys[pos.s] && x.pub == Pub(keys[pos.s])
    && x.peer == (if pos.r < 0 then None else Some(Pub(keys[pos.r])))
    && x.root == RootAt(secret, keys, Latest(pos))
    && x.sendKey == (if pos.s == 0 then NoKey else KeyAt(ChainAt(secret, keys, pos.s), lens[pos.s]))
    && x.sendCount == lens[pos.s]
    && x.previousLen == PreviousLen(lens, pos.s)
    && x.recvKey == (if pos.r <= 0 then NoKey else KeyAt(ChainAt(secret, keys, pos.r), x.recvCount))
    && (pos.r <= 0 ==> x.recvCount == 0)
  }

  ghost predicate IsSlot(x: Session, secret: Key, keys: seq<nat>, r: int, slot: Slot, c: int)
    requires slot in x.skipped && r < |keys|
  {
    && 1 <= c <= r
    && slot.0 == Some(Pub(keys[c]))
    && (c == r ==> slot.1 < x.recvCount)
    && x.skipped[slot] == SlotKey(secret, keys, c, slot.1)
  }

  /** Every cached entry is the key of a message that its chain has passed. */
  ghost predicate CacheRight(x: Session, secret: Key, keys: seq<nat>, r: int)
    requires r < |keys|
  {
    forall slot: Slot | slot in x.skipped :: exists c :: IsSlot(x, secret, keys, r, slot, c)
  }

  /** The cache stays right while the receiving chain moves forward. */
  lemma CacheCarried(x: Session, x': Session, secret: Key, keys: seq<nat>, r: int, r': int)
    requires r <= r' < |keys| && CacheRight(x, secret, keys, r)
    requires x'.skipped.Keys <= x.skipped.Keys && forall k: Slot | k in x'.skipped :: x'.skipped[k] == x.skipped[k]
    requires r == r' ==> x.recvCount <= x'.recvCount
    ensures CacheRight(x', secret, keys, r')
  {
    forall k: Slot | k in x'.skipped
      ensures exists c :: IsSlot(x', secret, keys, r', k, c)
    {
      var c :| IsSlot(x, secret, keys, r, k, c);
      assert IsSlot(x', secret, keys, r', k, c);
    }
  }

  ghost predicate Distinct(keys: seq<nat>) {
    forall i, j | 0 <= i < j < |keys| :: keys[i] != keys[j]
  }

  // ---------------------------------------------------------------- one party: decryption

  function SlotName(keys: seq<nat>, c: nat, i: nat): Slot
    requires c < |keys|
  {
    (Some(Pub(keys[c])), i)
  }

  /** Skipping along the receiving chain keeps the party in place and the cache right. */
  lemma AdvancePlaced(x: Session, secret: Key, keys: seq<nat>, lens: seq<nat>, pos: Pos, n: nat)
    requires Placed(x, secret, keys, lens, pos) && CacheRight(x, secret, keys, pos.r) && pos.r >= 1
    ensures var x' := AdvanceTo(x, n);
            && Placed(x', secret, keys, lens, pos) && CacheRight(x', secret, keys, pos.r)
            && x.skipped.Keys <= x'.skipped.Keys
            && x'.recvCount == (if n > x.recvCount then n else x.recvCount)
  {
    if n > x.recvCount {
      var chain := ChainAt(secret, keys, pos.r);
      KeyAtSum(chain, x.recvCount, n - x.recvCount);
      SkipRangeEntries(x.skipped, x.peer, chain, x.recvCount, n);
      var x' := AdvanceTo(x, n);
      forall slot: Slot | slot in x'.skipped
        ensures exists c :: IsSlot(x', secret, keys, pos.r, slot, c)
      {
        assert SkippedEntry(x.skipped, x'.skipped, x.peer, chain, x.recvCount, n, slot);
        if slot in x.skipped && x'.skipped[slot] == x.skipped[slot] {
          var c :| IsSlot(x, secret, keys, pos.r, slot, c);
          assert IsSlot(x', secret, keys, pos.r, slot, c);
        } else {
          assert IsSlot(x', secret, keys, pos.r, slot, pos.r);
        }
      }
    }
  }

  lemma ForgetPlaced(x: Session, secret: Key, keys: seq<nat>, lens: seq<nat>, pos: Pos, slot: Slot)
    requires Placed(x, secret, keys, lens, pos) && CacheRight(x, secret, keys, pos.r)
    ensures var x' := x.(skipped := x.skipped - {slot});
            Placed(x', secret, keys, lens, pos) && CacheRight(x', secret, keys, pos.r)
  {
    CacheCarried(x, x.(skipped := x.skipped - {slot}), secret, keys, pos.r, pos.r);
  }

  lemma TakePlaced(x: Session, secret: Key, keys: seq<nat>, lens: seq<nat>, pos: Pos)
    requires Placed(x, secret, keys, lens, pos) && CacheRight(x, secret, keys, pos.r) && pos.r >= 1
    ensures var x' := x.(recvKey := Next(x.recvKey), recvCount := x.recvCount + 1);
            Placed(x', secret, keys, lens, pos) && CacheRight(x', secret, keys, pos.r)
  {
    var x' := x.(recvKey := Next(x.recvKey), recvCount := x.recvCount + 1);
    CacheCarried(x, x', secret, keys, pos.r, pos.r);
  }

  /** A cached entry under the key of chain `c` is the key of that message. */
  lemma CachedKey(x: Session, secret: Key, keys: seq<nat>, r: int, c: nat, i: nat)
    requires r < |keys| && CacheRight(x, secret, keys, r) && Distinct(keys)
    requires 1 <= c <= r && SlotName(keys, c, i) in x.skipped
    ensures x.skipped[SlotName(keys, c, i)] == SlotKey(secret, keys, c, i)
    ensures c == r ==> i < x.recvCount
  {
    var d :| IsSlot(x, secret, keys, r, SlotName(keys, c, i), d);
  }

  ghost predicate Stays(x: Session, secret: Key, keys: seq<nat>, lens: seq<nat>, pos: Pos) {
    Placed(x, secret, keys, lens, pos) && CacheRight(x, secret, keys, pos.r)
  }

  function SealedFor(key: Key, i: nat, ad: Bytes, plaintext: Bytes): Ciphertext {
    Sealed(key, Nonce(key, i), ad, plaintext)
  }

  lemma FinishCached(x: Session, secret: Key, keys: seq<nat>, lens: seq<nat>, pos: Pos,
                     header: Header, ad: Bytes, plaintext: Bytes)
    requires Stays(x, secret, keys, lens, pos) && Distinct(keys)
    requires pos.r >= 1 && header.dhPub == Some(Pub(keys[pos.r]))
    requires (header.dhPub, header.messageNumber) in x.skipped
    ensures var i := header.messageNumber;
            Finish(x, header, SealedFor(SlotKey(secret, keys, pos.r, i), i, ad, plaintext), ad)
            == (x.(skipped := x.skipped - {(header.dhPub, i)}), Success(plaintext))
  {
    assert (header.dhPub, header.messageNumber) == SlotName(keys, pos.r, header.messageNumber);
    CachedKey(x, secret, keys, pos.r, pos.r, header.messageNumber);
  }

  /** The chain forgot nothing: `Finish` takes the next key after the skipped ones. */
  function TakenAt(x: Session, i: nat): Session {
    var x' := AdvanceTo(x, i);
    x'.(recvKey := Next(x'.recvKey), recvCount := x'.recvCount + 1)
  }

  lemma ChainDecryptHonest(x: Session, chain: Key, header: Header, ad: Bytes, plaintext: Bytes)
    requires chain.Chain? && x.recvKey == KeyAt(chain, x.recvCount) && !x.recvKey.NoKey?
    ensures var i := header.messageNumber;
            ChainDecrypt(x, header, SealedFor(Msg(KeyAt(chain, i)), i, ad, plaintext), ad)
            == (TakenAt(x, i), if i >= x.recvCount then Success(plaintext) else Failure(DecryptionFailed))
  {
    var i := header.messageNumber;
    if i >= x.recvCount {
      KeyAtSum(chain, x.recvCount, i - x.recvCount);
      assert AdvanceTo(x, i).recvKey == KeyAt(chain, i);
    } else if KeyAt(chain, x.recvCount) == KeyAt(chain, i) {
      KeyAtInjective(chain, i, x.recvCount);
    }
  }

  lemma FinishOnChain(x: Session, secret: Key, keys: seq<nat>, lens: seq<nat>, pos: Pos,
                      header: Header, ad: Bytes, plaintext: Bytes)
    requires Placed(x, secret, keys, lens, pos)
    requires pos.r >= 1 && header.dhPub == Some(Pub(keys[pos.r]))
    requires (header.dhPub, header.messageNumber) !in x.skipped
    ensures var i := header.messageNumber;
            Finish(x, header, SealedFor(SlotKey(secret, keys, pos.r, i), i, ad, plaintext), ad)
            == (TakenAt(x, i), if i >= x.recvCount then Success(plaintext) else Failure(DecryptionFailed))
  {
    assert x.(skipped := x.skipped - {(header.dhPub, header.messageNumber)}) == x;
    ChainDecryptHonest(x, ChainAt(secret, keys, pos.r), header, ad, plaintext);
  }

  /** A message of the chain that the party receives on decrypts exactly when its key is ahead or
      cached, and the party stays in place either way. */
  lemma FinishHonest(x: Session, secret: Key, keys: seq<nat>, lens: seq<nat>, pos: Pos,
                     header: Header, ad: Bytes, plaintext: Bytes)
    requires Stays(x, secret, keys, lens, pos) && Distinct(keys)
    requires pos.r >= 1 && header.dhPub == Some(Pub(keys[pos.r]))
    ensures var i := header.messageNumber;
            var (x', r) := Finish(x, header, SealedFor(SlotKey(secret, keys, pos.r, i), i, ad, plaintext), ad);
            && Stays(x', secret, keys, lens, pos)
            && r == (if KeyAvailable(x, header) then Success(plaintext) else Failure(DecryptionFailed))
            && x' == if (header.dhPub, i) in x.skipped then x.(skipped := x.skipped - {(header.dhPub, i)})
                     else TakenAt(x, i)
  {
    var i := header.messageNumber;
    if (header.dhPub, i) in x.skipped {
      FinishCached(x, secret, keys, lens, pos, header, ad, plaintext);
      ForgetPlaced(x, secret, keys, lens, pos, (header.dhPub, i));
    } else {
      FinishOnChain(x, secret, keys, lens, pos, header, ad, plaintext);
      TakenStays(x, secret, keys, lens, pos, i);
    }
  }

  lemma TakenStays(x: Session, secret: Key, keys: seq<nat>, lens: seq<nat>, pos: Pos, i: nat)
    requires Stays(x, secret, keys, lens, pos) && pos.r >= 1
    ensures Stays(TakenAt(x, i), secret, keys, lens, pos)
  {
    var x' := AdvancedTo(x, secret, keys, lens, pos, i);
    TakePlaced(x', secret, keys, lens, pos);
  }

  lemma AdvancedTo(x: Session, secret: Key, keys: seq<nat>, lens: seq<nat>, pos: Pos, i: nat) returns (x': Session)
    requires Stays(x, secret, keys, lens, pos) && pos.r >= 1
    ensures Stays(x', secret, keys, lens, pos)
    ensures TakenAt(x, i) == x'.(recvKey := Next(x'.recvKey), recvCount := x'.recvCount + 1)
  {
    x' := AdvanceTo(x, i);
    AdvancePlaced(x, secret, keys, lens, pos, i);
  }

  // ---------------------------------------------------------------- one party: ratchet steps

  /** Generating another key pair elsewhere does not move a party. */
  lemma PlacedPrefix(x: Session, secret: Key, keys: seq<nat>, lens: seq<nat>, pos: Pos, newKey: nat)
    requires Stays(x, secret, keys, lens, pos)
    ensures Stays(x, secret, keys + [newKey], lens + [0], pos)
  {
    var keys' := keys + [newKey];
    RootAtPrefix(secret, keys, newKey, Latest(pos));
    if pos.s > 0 {
      RootAtPrefix(secret, keys, newKey, pos.s - 1);
    }
    if pos.r > 0 {
      RootAtPrefix(secret, keys, newKey, pos.r - 1);
    }
    forall k: Slot | k in x.skipped
      ensures exists c :: IsSlot(x, secret, keys', pos.r, k, c)
    {
      var c :| IsSlot(x, secret, keys, pos.r, k, c);
      RootAtPrefix(secret, keys, newKey, c - 1);
      assert IsSlot(x, secret, keys', pos.r, k, c);
    }
  }

  /** A message sent on a chain of the other party does not move this one. */
  lemma PlacedOtherLen(x: Session, secret: Key, keys: seq<nat>, lens: seq<nat>, pos: Pos, c: nat, n: nat)
    requires Stays(x, secret, keys, lens, pos)
    requires c < |lens| && c != pos.s && c + 2 != pos.s
    ensures Stays(x, secret, keys, lens[c := n], pos)
  {
  }

  /** The first message: the responder opens chain 1 and generates nothing. */
  lemma FirstChainPlaced(x: Session, secret: Key, keys: seq<nat>, lens: seq<nat>)
    requires Stays(x, secret, keys, lens, Pos(-1, 0)) && |keys| >= 2
    ensures Stays(OpenReceivingChain(x, Pub(keys[1])), secret, keys, lens, Pos(1, 0))
  {
    assert DH(keys[0], Pub(keys[1])) == DH(keys[1], Pub(keys[0]));
    var x' := OpenReceivingChain(x, Pub(keys[1]));
    assert x'.root == RootAt(secret, keys, 1);
    CacheCarried(x, x', secret, keys, -1, 1);
  }

  lemma NextChainsPlaced(x: Session, secret: Key, keys: seq<nat>, lens: seq<nat>, pos: Pos)
    requires Placed(x, secret, keys, lens, pos) && pos.r >= 0 && pos.s == pos.r + 1
    requires |keys| == pos.r + 4 && lens[pos.r + 3] == 0
    ensures Placed(SendRatchet(OpenReceivingChain(x, Pub(keys[pos.r + 2])), keys[pos.r + 3]),
                   secret, keys, lens, Pos(pos.r + 2, pos.r + 3))
  {
    var c := pos.r + 2;
    var x1 := OpenReceivingChain(x, Pub(keys[c]));
    assert DH(keys[c - 1], Pub(keys[c])) == DH(keys[c], Pub(keys[c - 1]));
    assert x1.root == RootAt(secret, keys, c) && x1.recvKey == ChainAt(secret, keys, c);
    var x2 := SendRatchet(x1, keys[c + 1]);
    assert x2.root == RootAt(secret, keys, c + 1) && x2.sendKey == ChainAt(secret, keys, c + 1);
  }

  /** Receiving on the next chain closes the old one, opens that one, and opens a new sending chain. */
  lemma RatchetPlaced(x: Session, secret: Key, keys: seq<nat>, lens: seq<nat>, pos: Pos, previousLen: nat, newKey: nat)
    requires Stays(x, secret, keys, lens, pos) && pos.r >= 0 && pos.s == pos.r + 1
    requires |keys| == pos.r + 3
    ensures Stays(ReceiveRatchet(x, previousLen, Pub(keys[pos.r + 2]), newKey),
                  secret, keys + [newKey], lens + [0], Pos(pos.r + 2, pos.r + 3))
  {
    ClosePlaced(x, secret, keys, lens, pos, previousLen);
    NextStays(CloseReceivingChain(x, previousLen), secret, keys, lens, pos, newKey);
  }

  lemma ClosePlaced(x: Session, secret: Key, keys: seq<nat>, lens: seq<nat>, pos: Pos, previousLen: nat)
    requires Stays(x, secret, keys, lens, pos) && pos.r >= 0
    ensures Stays(CloseReceivingChain(x, previousLen), secret, keys, lens, pos)
  {
    if pos.r >= 1 {
      AdvancePlaced(x, secret, keys, lens, pos, previousLen);
    }
  }

  lemma NextStays(x: Session, secret: Key, keys: seq<nat>, lens: seq<nat>, pos: Pos, newKey: nat)
    requires Stays(x, secret, keys, lens, pos) && pos.r >= 0 && pos.s == pos.r + 1 && |keys| == pos.r + 3
    ensures Stays(SendRatchet(OpenReceivingChain(x, Pub(keys[pos.r + 2])), newKey),
                  secret, keys + [newKey], lens + [0], Pos(pos.r + 2, pos.r + 3))
  {
    PlacedPrefix(x, secret, keys, lens, pos, newKey);
    NextChainsPlaced(x, secret, keys + [newKey], lens + [0], pos);
    CacheCarried(x, SendRatchet(OpenReceivingChain(x, Pub(keys[pos.r + 2])), newKey),
                 secret, keys + [newKey], pos.r, pos.r + 2);
  }

  /** Sending on an open chain. */
  lemma EncryptPlaced(x: Session, secret: Key, keys: seq<nat>, lens: seq<nat>, pos: Pos, plaintext: Bytes, ad: Bytes)
    requires Stays(x, secret, keys, lens, pos) && pos.s > 0
    ensures var (x', m) := Encrypted(x, plaintext, ad);
            && Stays(x', secret, keys, lens[pos.s := lens[pos.s] + 1], pos)
            && m == Honest(secret, keys, lens, pos.s, lens[pos.s], ad, plaintext)
  {
    CacheCarried(x, Encrypted(x, plaintext, ad).0, secret, keys, pos.r, pos.r);
  }

  /** The responder's first send opens chain 2. */
  lemma LazySendPlaced(x: Session, secret: Key, keys: seq<nat>, lens: seq<nat>, newKey: nat)
    requires Stays(x, secret, keys, lens, Pos(1, 0)) && |keys| == 2 && lens[0] == 0
    ensures Stays(SendRatchet(x, newKey), secret, keys + [newKey], lens + [0], Pos(1, 2))
  {
    PlacedPrefix(x, secret, keys, lens, Pos(1, 0), newKey);
    var x' := SendRatchet(x, newKey);
    var keys' := keys + [newKey];
    assert x'.root == RootAt(secret, keys', 2) && x'.sendKey == ChainAt(secret, keys', 2);
    CacheCarried(x, x', secret, keys', 1, 1);
  }

  // ---------------------------------------------------------------- both parties

  /** What an observer of the whole run knows: where the parties are, how many messages each chain
      carries, and the chain of each message of the log. */
  datatype Trace = Trace(secret: Key, alice: Pos, bob: Pos, lens: seq<nat>, chains: seq<nat>)
  {
    function At(p: Party): Pos {
      if p == Alice then alice else bob
    }

    function Move(p: Party, pos: Pos): Trace {
      if p == Alice then this.(alice := pos) else this.(bob := pos)
    }
  }

  /** Each party is at most one root step away from the other, on the chains that the other one uses. */
  ghost predicate Places(t: Trace, n: nat) {
    && t.alice.r >= 0 && t.alice.s == t.alice.r + 1 && t.alice.s % 2 == 1
    && PosOk(t.bob) && t.bob.s % 2 == 0
    && (t.alice.s == t.bob.r || t.alice.s == t.bob.r + 2)
    && (t.bob.s == t.alice.r || t.bob.s == t.alice.r + 2)
    && n == 1 + (if t.alice.s > t.bob.s then t.alice.s else t.bob.s)
  }

  ghost predicate LogEntry(net: Net, t: Trace, k: nat)
    requires k < |net.log| == |t.chains|
  {
    var c, e := t.chains[k], net.log[k];
    var i := e.msg.header.messageNumber;
    && 1 <= c <= t.At(e.sender).s < |net.keys| == |t.lens|
    && c % 2 == t.At(e.sender).s % 2
    && i < t.lens[c]
    && e.msg == Honest(t.secret, net.keys, t.lens, c, i, net.ad, e.plaintext)
  }

  ghost predicate InOrder(net: Net, t: Trace, j: nat, k: nat)
    requires j < |net.log| == |t.chains| && k < |net.log|
  {
    || t.chains[j] < t.chains[k]
    || (t.chains[j] == t.chains[k]
        && net.log[j].msg.header.messageNumber < net.log[k].msg.header.messageNumber)
  }

  ghost predicate LogOk(net: Net, t: Trace) {
    && |net.log| == |t.chains|
    && (forall k | 0 <= k < |net.log| :: LogEntry(net, t, k))
    && (forall j, k | 0 <= j < k < |net.log| && net.log[j].sender == net.log[k].sender :: InOrder(net, t, j, k))
  }

  /** The chain that a party receives on is the newest one of which it got a message. */
  ghost predicate GotOk(net: Net, t: Trace, p: Party)
    requires |net.log| == |t.chains|
  {
    && (forall j | j in net.Got(p) :: j < |net.log| && net.log[j].sender == Peer(p) && t.chains[j] <= t.At(p).r)
    && (t.At(p).r >= 1 ==> exists j :: j in net.Got(p) && j < |net.log| && t.chains[j] == t.At(p).r)
  }

  ghost predicate StaysAt(net: Net, t: Trace, p: Party) {
    Stays(net.Of(p), t.secret, net.keys, t.lens, t.At(p))
  }

  ghost predicate Frame(net: Net, t: Trace) {
    && |net.keys| == |t.lens| && t.lens != [] && t.lens[0] == 0
    && Distinct(net.keys)
    && Places(t, |net.keys|)
  }

  ghost predicate Core(net: Net, t: Trace) {
    && Frame(net, t)
    && StaysAt(net, t, Alice) && StaysAt(net, t, Bob)
    && LogOk(net, t)
  }

  ghost predicate Inv(net: Net, t: Trace) {
    Core(net, t) && GotOk(net, t, Alice) && GotOk(net, t, Bob)
  }

  lemma BeginInv(secret: Key, spk: nat, first: nat, ad: Bytes)
    requires spk != first
    ensures Inv(Begin(secret, spk, first, ad), Trace(secret, Pos(0, 1), Pos(-1, 0), [0, 0], []))
  {
    var keys := [spk, first];
    assert RootAt(secret, keys, 1) == Root(secret, DH(first, Pub(spk)));
  }

  // ---------------------------------------------------------------- sending

  function Opened(t: Trace): Trace {
    t.(lens := t.lens + [0])
  }

  /** Another key pair leaves the log as it was. */
  lemma LogPrefix(net: Net, t: Trace, newKey: nat)
    requires LogOk(net, t) && |net.keys| == |t.lens|
    ensures LogOk(net.(keys := net.keys + [newKey]), Opened(t))
  {
    var net', t' := net.(keys := net.keys + [newKey]), Opened(t);
    forall k | 0 <= k < |net.log|
      ensures LogEntry(net', t', k)
    {
      assert LogEntry(net, t, k);
      RootAtPrefix(t.secret, net.keys, newKey, t.chains[k] - 1);
    }
    forall j, k | 0 <= j < k < |net.log| && net.log[j].sender == net.log[k].sender
      ensures InOrder(net', t', j, k)
    {
      assert InOrder(net, t, j, k);
    }
  }

  function Extended(t: Trace, c: nat): Trace
    requires c < |t.lens|
  {
    t.(lens := t.lens[c := t.lens[c] + 1], chains := t.chains + [c])
  }

  /** A sent message joins the log, which stays in order. */
  lemma LogExtended(net: Net, t: Trace, p: Party, m: EncryptedMessage, plaintext: Bytes)
    requires LogOk(net, t) && 0 < t.At(p).s < |net.keys| == |t.lens| && Places(t, |net.keys|)
    requires m == Honest(t.secret, net.keys, t.lens, t.At(p).s, t.lens[t.At(p).s], net.ad, plaintext)
    ensures LogOk(net.(log := net.log + [Sent(p, m, plaintext)]), Extended(t, t.At(p).s))
  {
    var c := t.At(p).s;
    var net', t' := net.(log := net.log + [Sent(p, m, plaintext)]), Extended(t, c);
    forall k | 0 <= k < |net'.log|
      ensures LogEntry(net', t', k)
    {
      assert k < |net.log| ==> LogEntry(net, t, k);
    }
    forall j, k | 0 <= j < k < |net'.log| && net'.log[j].sender == net'.log[k].sender
      ensures InOrder(net', t', j, k)
    {
      assert LogEntry(net, t, j);
      assert k < |net.log| ==> InOrder(net, t, j, k);
    }
  }

  lemma GotKept(net: Net, t: Trace, net': Net, t': Trace, p: Party)
    requires |net.log| == |t.chains| && |net'.log| == |t'.chains| && GotOk(net, t, p)
    requires net.log <= net'.log && t.chains <= t'.chains && net'.Got(p) == net.Got(p) && t'.At(p).r == t.At(p).r
    ensures GotOk(net', t', p)
  {
    if t.At(p).r >= 1 {
      var j :| j in net.Got(p) && j < |net.log| && t.chains[j] == t.At(p).r;
      assert t'.chains[j] == t.At(p).r;
    }
  }

  function Posted(net: Net, p: Party, plaintext: Bytes): Net {
    var (s, m) := Encrypted(net.Of(p), plaintext, net.ad);
    net.With(p, s).(log := net.log + [Sent(p, m, plaintext)])
  }

  lemma PostedSender(net: Net, t: Trace, p: Party, plaintext: Bytes)
    requires StaysAt(net, t, p) && t.At(p).s > 0
    ensures StaysAt(Posted(net, p, plaintext), Extended(t, t.At(p).s), p)
  {
    EncryptPlaced(net.Of(p), t.secret, net.keys, t.lens, t.At(p), plaintext, net.ad);
  }

  lemma PostedOther(net: Net, t: Trace, net': Net, t': Trace, p: Party, plaintext: Bytes)
    requires Places(t, |net.keys|) && |t.lens| == |net.keys| && StaysAt(net, t, Peer(p)) && t.At(p).s > 0
    requires net' == Posted(net, p, plaintext) && t.At(p).s < |t.lens| && t' == Extended(t, t.At(p).s)
    ensures StaysAt(net', t', Peer(p))
  {
    OtherChains(t, |net.keys|, p);
    PostedParts(net, p, plaintext);
    LongerChainStays(net, t, net', t', Peer(p), t.At(p).s);
  }

  lemma PostedParts(net: Net, p: Party, plaintext: Bytes)
    ensures Posted(net, p, plaintext).Of(Peer(p)) == net.Of(Peer(p)) && Posted(net, p, plaintext).keys == net.keys
  {
  }

  lemma LongerChainStays(net: Net, t: Trace, net': Net, t': Trace, q: Party, c: nat)
    requires StaysAt(net, t, q) && c < |t.lens| && c != t.At(q).s && c + 2 != t.At(q).s
    requires net'.Of(q) == net.Of(q) && net'.keys == net.keys
    requires t'.At(q) == t.At(q) && t'.secret == t.secret && t'.lens == t.lens[c := t.lens[c] + 1]
    ensures StaysAt(net', t', q)
  {
    PlacedOtherLen(net.Of(q), t.secret, net.keys, t.lens, t.At(q), c, t.lens[c] + 1);
  }

  /** The chain that one party sends on is not one of the other's. */
  lemma OtherChains(t: Trace, n: nat, p: Party)
    requires Places(t, n) && t.At(p).s > 0
    ensures t.At(p).s < n && t.At(p).s != t.At(Peer(p)).s && t.At(p).s + 2 != t.At(Peer(p)).s
  {
  }

  lemma PostedLog(net: Net, t: Trace, p: Party, plaintext: Bytes)
    requires LogOk(net, t) && StaysAt(net, t, p) && Places(t, |net.keys|) && t.At(p).s > 0
    ensures LogOk(Posted(net, p, plaintext), Extended(t, t.At(p).s))
  {
    var c := t.At(p).s;
    var (s, m) := Encrypted(net.Of(p), plaintext, net.ad);
    EncryptPlaced(net.Of(p), t.secret, net.keys, t.lens, t.At(p), plaintext, net.ad);
    LogExtended(net, t, p, m, plaintext);
    MovedLog(net.(log := net.log + [Sent(p, m, plaintext)]), Extended(t, c), Posted(net, p, plaintext), Extended(t, c));
  }

  lemma EitherStays(net: Net, t: Trace, p: Party)
    requires StaysAt(net, t, Alice) && StaysAt(net, t, Bob)
    ensures StaysAt(net, t, p) && StaysAt(net, t, Peer(p))
  {
  }

  /** Both parties, named from the side of one of them. */
  lemma BothStay(net: Net, t: Trace, p: Party)
    requires StaysAt(net, t, p) && StaysAt(net, t, Peer(p))
    ensures StaysAt(net, t, Alice) && StaysAt(net, t, Bob)
  {
  }

  lemma PostedGots(net: Net, t: Trace, p: Party, plaintext: Bytes, q: Party)
    requires |net.log| == |t.chains| && t.At(p).s < |t.lens| && GotOk(net, t, q)
    ensures |Posted(net, p, plaintext).log| == |Extended(t, t.At(p).s).chains|
    ensures GotOk(Posted(net, p, plaintext), Extended(t, t.At(p).s), q)
  {
    GotKept(net, t, Posted(net, p, plaintext), Extended(t, t.At(p).s), q);
  }

  lemma SendOnChain(net: Net, t: Trace, p: Party, plaintext: Bytes)
    requires Inv(net, t) && t.At(p).s > 0
    ensures Inv(Posted(net, p, plaintext), Extended(t, t.At(p).s))
  {
    var net', t' := Posted(net, p, plaintext), Extended(t, t.At(p).s);
    assert StaysAt(net, t, p) && StaysAt(net, t, Peer(p));
    PostedSender(net, t, p, plaintext);
    PostedOther(net, t, net', t', p, plaintext);
    BothStay(net', t', p);
    PostedLog(net, t, p, plaintext);
    PostedGots(net, t, p, plaintext, Alice);
    PostedGots(net, t, p, plaintext, Bob);
  }

  /** Bob's first send opens chain 2 before it sends. */
  lemma OpenSecondChain(net: Net, t: Trace, newKey: nat)
    requires Inv(net, t) && t.bob == Pos(1, 0) && newKey !in net.keys
    ensures Inv(net.With(Bob, SendRatchet(net.bob, newKey)).(keys := net.keys + [newKey]),
                Opened(t).Move(Bob, Pos(1, 2)))
  {
    var net' := net.With(Bob, SendRatchet(net.bob, newKey)).(keys := net.keys + [newKey]);
    var t' := Opened(t).Move(Bob, Pos(1, 2));
    assert StaysAt(net, t, Bob) && StaysAt(net, t, Alice);
    LazySendPlaced(net.bob, t.secret, net.keys, t.lens, newKey);
    PlacedPrefix(net.alice, t.secret, net.keys, t.lens, t.alice, newKey);
    LogPrefix(net, t, newKey);
    MovedLog(net.(keys := net'.keys), Opened(t), net', t');
    GotKept(net, t, net', t', Alice);
    GotKept(net, t, net', t', Bob);
  }

  /** A party may move forward along its chains. */
  lemma MovedLog(net: Net, t: Trace, net': Net, t': Trace)
    requires LogOk(net, t) && net'.log == net.log && net'.keys == net.keys && net'.ad == net.ad
    requires t'.secret == t.secret && t'.lens == t.lens && t'.chains == t.chains
    requires forall p :: t.At(p).s <= t'.At(p).s < |net.keys| && t.At(p).s % 2 == t'.At(p).s % 2
    ensures LogOk(net', t')
  {
    forall k | 0 <= k < |net.log|
      ensures LogEntry(net', t', k)
    {
      assert LogEntry(net, t, k);
    }
    forall j, k | 0 <= j < k < |net.log| && net.log[j].sender == net.log[k].sender
      ensures InOrder(net', t', j, k)
    {
      assert InOrder(net, t, j, k);
    }
  }

  function SentTrace(t: Trace, p: Party): (t': Trace)
    requires t.At(p).s < |t.lens| && (t.At(p).s == 0 ==> |t.lens| == 2 || t.At(p).r < 0)
    ensures t'.secret == t.secret
  {
    if t.At(p).s > 0 then Extended(t, t.At(p).s)
    else if t.At(p).r < 0 then t
    else Extended(Opened(t).Move(Bob, Pos(1, 2)), 2)
  }

  /** What the observer knows after the event. */
  ghost function NextTrace(net: Net, t: Trace, e: Event): (t': Trace)
    requires Inv(net, t) && Possible(net, e)
    ensures t'.secret == t.secret
  {
    match e
    case Send(p, _, _) => SentTrace(t, p)
    case Deliver(k, _) => SyncedTrace(t, Receiver(net, k), t.chains[k])
  }

  /** A send posts a message, after opening chain 2 if it is Bob's first, or fails. */
  lemma SendStep(net: Net, t: Trace, e: Event)
    requires e.Send? && StaysAt(net, t, e.p)
    ensures t.At(e.p).s > 0 ==> Step(net, e) == Posted(net, e.p, e.plaintext)
    ensures t.At(e.p).s == 0 && t.At(e.p).r < 0 ==> Step(net, e) == net
    ensures t.At(e.p).s == 0 && t.At(e.p).r == 1 ==>
              Step(net, e) == Posted(net.With(e.p, SendRatchet(net.Of(e.p), e.newKey)).(keys := net.keys + [e.newKey]),
                                     e.p, e.plaintext)
  {
  }

  lemma SendInv(net: Net, t: Trace, e: Event)
    requires Inv(net, t) && e.Send? && Orderly(net, e)
    ensures Inv(Step(net, e), NextTrace(net, t, e))
  {
    var p := e.p;
    EitherStays(net, t, p);
    SendStep(net, t, e);
    if t.At(p).s > 0 {
      SendOnChain(net, t, p, e.plaintext);
    } else if t.At(p).r >= 0 {
      OpenSecondChain(net, t, e.newKey);
      var net1 := net.With(Bob, SendRatchet(net.bob, e.newKey)).(keys := net.keys + [e.newKey]);
      SendOnChain(net1, Opened(t).Move(Bob, Pos(1, 2)), Bob, e.plaintext);
    }
  }

  // ---------------------------------------------------------------- delivering

  /** On an orderly schedule a message is of the chain that the receiver is on, or of the next one. */
  lemma ChainOfDelivery(net: Net, t: Trace, k: nat)
    requires Inv(net, t) && k < |net.log| && NotStale(net, k)
    ensures var r := t.At(Receiver(net, k)).r;
            t.chains[k] == r || t.chains[k] == r + 2
  {
    NextOrSame(net, t, k, Receiver(net, k));
  }

  lemma NextOrSame(net: Net, t: Trace, k: nat, p: Party)
    requires k < |net.log| && NotStale(net, k) && p == Receiver(net, k)
    requires Distinct(net.keys) && Places(t, |net.keys|) && LogOk(net, t) && GotOk(net, t, p)
    ensures t.chains[k] == t.At(p).r || t.chains[k] == t.At(p).r + 2
  {
    assert LogEntry(net, t, k);
    if t.At(p).r >= 1 {
      var j :| j in net.Got(p) && j < |net.log| && t.chains[j] == t.At(p).r;
      assert LogEntry(net, t, j);
      assert j < k ==> InOrder(net, t, j, k);
    }
  }

  /** The receiver after the DH step of the delivery of message `k`. */
  function Synced(net: Net, k: nat, newKey: nat): Net
    requires k < |net.log|
  {
    var p, header := Receiver(net, k), net.log[k].msg.header;
    net.With(p, DhPhase(net.Of(p), header, newKey))
       .(keys := if NeedsRatchet(net.Of(p), header) then net.keys + [newKey] else net.keys)
  }

  /** Where the receiver is then. */
  function SyncedTrace(t: Trace, p: Party, c: nat): (t': Trace)
    ensures t'.secret == t.secret
  {
    if t.At(p).r == c then t
    else if t.At(p).r < 0 then t.Move(p, Pos(1, 0))
    else Opened(t).Move(p, Pos(c, c + 1))
  }

  /** The DH step of a message of chain `c`, at a receiver that is on chain `r`. */
  lemma DhCases(x: Session, keys: seq<nat>, r: int, c: nat, header: Header, newKey: nat)
    requires -1 <= r < |keys| && c < |keys| && Distinct(keys)
    requires x.peer == (if r < 0 then None else Some(Pub(keys[r]))) && header.dhPub == Some(Pub(keys[c]))
    ensures NeedsRatchet(x, header) <==> r >= 0 && c != r
    ensures DhPhase(x, header, newKey)
         == if r < 0 then OpenReceivingChain(x, Pub(keys[c]))
            else if c == r then x
            else ReceiveRatchet(x, header.previousChainLen, Pub(keys[c]), newKey)
  {
  }

  /** The message may come next: it is of the receiver's chain, or of the one after it. */
  ghost predicate ComesNext(pos: Pos, n: nat, c: nat) {
    && c >= 1
    && (|| c == pos.r
        || (pos == Pos(-1, 0) && c == 1 && n >= 2)
        || (pos.r >= 0 && c == pos.r + 2 && pos.s == pos.r + 1 && n == c + 1))
  }

  lemma DhPhasePlaced(x: Session, secret: Key, keys: seq<nat>, lens: seq<nat>, pos: Pos, c: nat, header: Header,
                      newKey: nat)
    requires Stays(x, secret, keys, lens, pos) && Distinct(keys)
    requires c < |keys| && ComesNext(pos, |keys|, c) && header.dhPub == Some(Pub(keys[c]))
    ensures NeedsRatchet(x, header) ==>
              Stays(DhPhase(x, header, newKey), secret, keys + [newKey], lens + [0], Pos(c, c + 1))
    ensures !NeedsRatchet(x, header) ==> Stays(DhPhase(x, header, newKey), secret, keys, lens, Pos(c, pos.s))
  {
    DhCases(x, keys, pos.r, c, header, newKey);
    if pos.r < 0 {
      FirstChainPlaced(x, secret, keys, lens);
    } else if c != pos.r {
      DhRatchetPlaced(x, secret, keys, lens, pos, header, newKey);
    }
  }

  lemma DhRatchetPlaced(x: Session, secret: Key, keys: seq<nat>, lens: seq<nat>, pos: Pos, header: Header, newKey: nat)
    requires Stays(x, secret, keys, lens, pos) && pos.r >= 0 && pos.s == pos.r + 1 && |keys| == pos.r + 3
    requires NeedsRatchet(x, header) && header.dhPub == Some(Pub(keys[pos.r + 2]))
    ensures Stays(DhPhase(x, header, newKey), secret, keys + [newKey], lens + [0], Pos(pos.r + 2, pos.r + 3))
  {
    RatchetPlaced(x, secret, keys, lens, pos, header.previousChainLen, newKey);
  }

  /** A message that a party can have sent comes next at the other one, who then is on its chain. */
  lemma NextPlaces(t: Trace, n: nat, p: Party, c: nat)
    requires Places(t, n) && (c == t.At(p).r || c == t.At(p).r + 2)
    requires 1 <= c <= t.At(Peer(p)).s
    ensures c < n && ComesNext(t.At(p), n, c)
    ensures var t' := SyncedTrace(t, p, c);
            && Places(t', if c != t.At(p).r && t.At(p).r >= 0 then n + 1 else n)
            && t'.At(p) == (if t.At(p).r == c then t.At(p) else if t.At(p).r < 0 then Pos(1, 0) else Pos(c, c + 1))
            && t'.At(Peer(p)) == t.At(Peer(p))
  {
  }

  ghost predicate CanDeliver(net: Net, t: Trace, k: nat) {
    && k < |net.log| == |t.chains|
    && LogEntry(net, t, k)
    && (t.chains[k] == t.At(Receiver(net, k)).r || t.chains[k] == t.At(Receiver(net, k)).r + 2)
  }

  lemma SyncedReceiver(net: Net, t: Trace, k: nat, newKey: nat)
    requires CanDeliver(net, t, k) && Places(t, |net.keys|) && Distinct(net.keys)
    requires StaysAt(net, t, Receiver(net, k))
    ensures var p := Receiver(net, k);
            && StaysAt(Synced(net, k, newKey), SyncedTrace(t, p, t.chains[k]), p)
            && (NeedsRatchet(net.Of(p), net.log[k].msg.header) <==> t.At(p).r >= 0 && t.chains[k] != t.At(p).r)
  {
    var p, c, header := Receiver(net, k), t.chains[k], net.log[k].msg.header;
    NextPlaces(t, |net.keys|, p, c);
    DhCases(net.Of(p), net.keys, t.At(p).r, c, header, newKey);
    DhPhasePlaced(net.Of(p), t.secret, net.keys, t.lens, t.At(p), c, header, newKey);
    assert Synced(net, k, newKey).Of(p) == DhPhase(net.Of(p), header, newKey);
  }

  lemma SyncedOther(net: Net, t: Trace, k: nat, newKey: nat)
    requires k < |net.log| == |t.chains| && StaysAt(net, t, Peer(Receiver(net, k)))
    requires var p := Receiver(net, k);
             NeedsRatchet(net.Of(p), net.log[k].msg.header) <==> t.At(p).r >= 0 && t.chains[k] != t.At(p).r
    ensures StaysAt(Synced(net, k, newKey), SyncedTrace(t, Receiver(net, k), t.chains[k]), Peer(Receiver(net, k)))
  {
    var q := Peer(Receiver(net, k));
    PlacedPrefix(net.Of(q), t.secret, net.keys, t.lens, t.At(q), newKey);
  }

  lemma SyncedLog(net: Net, t: Trace, k: nat, newKey: nat)
    requires CanDeliver(net, t, k) && Places(t, |net.keys|) && |net.keys| == |t.lens| && LogOk(net, t)
    requires var p := Receiver(net, k);
             NeedsRatchet(net.Of(p), net.log[k].msg.header) <==> t.At(p).r >= 0 && t.chains[k] != t.At(p).r
    ensures LogOk(Synced(net, k, newKey), SyncedTrace(t, Receiver(net, k), t.chains[k]))
  {
    var p, c := Receiver(net, k), t.chains[k];
    var net', t' := Synced(net, k, newKey), SyncedTrace(t, p, c);
    NextPlaces(t, |net.keys|, p, c);
    if t.At(p).r == c || t.At(p).r < 0 {
      MovedLog(net, t, net', t');
    } else {
      LogPrefix(net, t, newKey);
      MovedLog(net.(keys := net'.keys), Opened(t), net', t');
    }
  }

  lemma SyncedFrame(net: Net, t: Trace, k: nat, newKey: nat)
    requires Frame(net, t) && CanDeliver(net, t, k) && newKey !in net.keys
    requires var p := Receiver(net, k);
             NeedsRatchet(net.Of(p), net.log[k].msg.header) <==> t.At(p).r >= 0 && t.chains[k] != t.At(p).r
    ensures var t' := SyncedTrace(t, Receiver(net, k), t.chains[k]);
            Frame(Synced(net, k, newKey), t') && t'.At(Receiver(net, k)).r == t.chains[k]
  {
    NextPlaces(t, |net.keys|, Receiver(net, k), t.chains[k]);
  }

  lemma SyncedCore(net: Net, t: Trace, k: nat, newKey: nat)
    requires Core(net, t) && CanDeliver(net, t, k) && newKey !in net.keys
    ensures var t' := SyncedTrace(t, Receiver(net, k), t.chains[k]);
            Core(Synced(net, k, newKey), t') && t'.At(Receiver(net, k)).r == t.chains[k]
  {
    var p := Receiver(net, k);
    EitherStays(net, t, p);
    SyncedReceiver(net, t, k, newKey);
    SyncedOther(net, t, k, newKey);
    BothStay(Synced(net, k, newKey), SyncedTrace(t, p, t.chains[k]), p);
    SyncedLog(net, t, k, newKey);
    SyncedFrame(net, t, k, newKey);
  }

  function Finished(net: Net, k: nat): (Session, Result<Bytes, Error>)
    requires k < |net.log|
  {
    var m := net.log[k].msg;
    Finish(net.Of(Receiver(net, k)), m.header, m.ciphertext, net.ad)
  }

  lemma FinishedParty(net: Net, t: Trace, k: nat)
    requires CanDeliver(net, t, k) && Distinct(net.keys) && StaysAt(net, t, Receiver(net, k))
    requires t.chains[k] == t.At(Receiver(net, k)).r
    ensures var p, header := Receiver(net, k), net.log[k].msg.header;
            var (x, r) := Finished(net, k);
            && StaysAt(net.With(p, x), t, p)
            && r == (if KeyAvailable(net.Of(p), header) then Success(net.log[k].plaintext)
                     else Failure(DecryptionFailed))
            && x == if (header.dhPub, header.messageNumber) in net.Of(p).skipped
                    then net.Of(p).(skipped := net.Of(p).skipped - {(header.dhPub, header.messageNumber)})
                    else TakenAt(net.Of(p), header.messageNumber)
  {
    var p, e := Receiver(net, k), net.log[k];
    FinishHonest(net.Of(p), t.secret, net.keys, t.lens, t.At(p), e.msg.header, net.ad, e.plaintext);
  }

  function Completed(net: Net, k: nat): Net
    requires k < |net.log|
  {
    net.With(Receiver(net, k), Finished(net, k).0).Mark(Receiver(net, k), k)
  }

  lemma CompletedCore(net: Net, t: Trace, k: nat)
    requires Core(net, t) && CanDeliver(net, t, k) && t.chains[k] == t.At(Receiver(net, k)).r
    ensures Core(Completed(net, k), t)
  {
    var p := Receiver(net, k);
    var net' := Completed(net, k);
    EitherStays(net, t, p);
    CompletedParties(net, t, k);
    BothStay(net', t, p);
    LogOfParts(net, t, net');
  }

  lemma CompletedParties(net: Net, t: Trace, k: nat)
    requires CanDeliver(net, t, k) && Distinct(net.keys)
    requires StaysAt(net, t, Receiver(net, k)) && StaysAt(net, t, Peer(Receiver(net, k)))
    requires t.chains[k] == t.At(Receiver(net, k)).r
    ensures StaysAt(Completed(net, k), t, Receiver(net, k)) && StaysAt(Completed(net, k), t, Peer(Receiver(net, k)))
  {
    FinishedParty(net, t, k);
    var p, net' := Receiver(net, k), Completed(net, k);
    assert net'.Of(p) == Finished(net, k).0 && net'.Of(Peer(p)) == net.Of(Peer(p)) && net'.keys == net.keys;
  }

  lemma LogOfParts(net: Net, t: Trace, net': Net)
    requires LogOk(net, t) && Frame(net, t) && net'.log == net.log && net'.keys == net.keys && net'.ad == net.ad
    ensures LogOk(net', t)
  {
    MovedLog(net, t, net', t);
  }

  /** The DH step does not decide whether a key is still there. */
  lemma DhAvailable(x: Session, header: Header, newKey: nat)
    ensures KeyAvailable(DhPhase(x, header, newKey), header) <==> KeyAvailable(x, header)
  {
  }

  lemma SyncedAvailable(net: Net, k: nat, newKey: nat)
    requires k < |net.log|
    ensures var p, header := Receiver(net, k), net.log[k].msg.header;
            KeyAvailable(Synced(net, k, newKey).Of(p), header) <==> KeyAvailable(net.Of(p), header)
  {
    var p, header := Receiver(net, k), net.log[k].msg.header;
    DhAvailable(net.Of(p), header, newKey);
    assert Synced(net, k, newKey).Of(p) == DhPhase(net.Of(p), header, newKey);
  }

  /** The DH step touches the receiver and the list of key pairs only. */
  lemma SyncedSame(net: Net, t: Trace, k: nat, newKey: nat)
    requires k < |net.log| == |t.chains|
    ensures var net' := Synced(net, k, newKey);
            && net'.log == net.log && net'.ad == net.ad && Receiver(net', k) == Receiver(net, k)
            && net'.Got(Alice) == net.Got(Alice) && net'.Got(Bob) == net.Got(Bob)
    ensures SyncedTrace(t, Receiver(net, k), t.chains[k]).chains == t.chains
    ensures Step(net, Deliver(k, newKey)) == Completed(Synced(net, k, newKey), k)
    ensures Delivery(net, k, newKey) == Finished(Synced(net, k, newKey), k)
  {
  }

  /** The message may be delivered after the DH step that it caused. */
  lemma SyncedCanDeliver(net: Net, t: Trace, k: nat, newKey: nat)
    requires Core(net, t) && CanDeliver(net, t, k) && newKey !in net.keys
    ensures var net', t' := Synced(net, k, newKey), SyncedTrace(t, Receiver(net, k), t.chains[k]);
            && Core(net', t') && CanDeliver(net', t', k) && t'.chains[k] == t'.At(Receiver(net', k)).r
            && StaysAt(net', t', Receiver(net', k))
  {
    var net', t' := Synced(net, k, newKey), SyncedTrace(t, Receiver(net, k), t.chains[k]);
    SyncedSame(net, t, k, newKey);
    SyncedCore(net, t, k, newKey);
    assert LogEntry(net', t', k);
    EitherStays(net', t', Receiver(net', k));
  }

  /** A delivery is its DH step, which keeps both parties in place, and then the decryption. */
  lemma SplitDelivery(net: Net, t: Trace, k: nat, newKey: nat) returns (net': Net, t': Trace)
    requires Core(net, t) && CanDeliver(net, t, k) && newKey !in net.keys
    ensures Core(net', t') && CanDeliver(net', t', k) && t' == SyncedTrace(t, Receiver(net, k), t.chains[k])
    ensures Receiver(net', k) == Receiver(net, k) && t'.chains[k] == t'.At(Receiver(net, k)).r == t.chains[k]
    ensures Step(net, Deliver(k, newKey)) == Completed(net', k)
    ensures Delivery(net, k, newKey) == Finished(net', k)
    ensures net'.log[k] == net.log[k]
    ensures KeyAvailable(net'.Of(Receiver(net, k)), net.log[k].msg.header)
       <==> KeyAvailable(net.Of(Receiver(net, k)), net.log[k].msg.header)
  {
    net', t' := Synced(net, k, newKey), SyncedTrace(t, Receiver(net, k), t.chains[k]);
    SyncedSame(net, t, k, newKey);
    SyncedCanDeliver(net, t, k, newKey);
    EitherStays(net, t, Receiver(net, k));
    SyncedAvailable(net, k, newKey);
  }

  /** A delivery that comes next keeps both parties in place, and yields the plaintext exactly when
      the receiver still has the key. */
  lemma DeliverCore(net: Net, t: Trace, k: nat, newKey: nat)
    requires Core(net, t) && CanDeliver(net, t, k) && newKey !in net.keys
    ensures SyncedTrace(t, Receiver(net, k), t.chains[k]).At(Receiver(net, k)).r == t.chains[k]
    ensures Core(Step(net, Deliver(k, newKey)), SyncedTrace(t, Receiver(net, k), t.chains[k]))
    ensures Delivery(net, k, newKey).1
            == if KeyAvailable(net.Of(Receiver(net, k)), net.log[k].msg.header)
               then Success(net.log[k].plaintext) else Failure(DecryptionFailed)
  {
    var net', t' := SplitDelivery(net, t, k, newKey);
    FinishDelivery(net', t', k, Step(net, Deliver(k, newKey)), Delivery(net, k, newKey).1);
  }

  lemma FinishDelivery(net: Net, t: Trace, k: nat, end: Net, r: Result<Bytes, Error>)
    requires Core(net, t) && CanDeliver(net, t, k) && t.chains[k] == t.At(Receiver(net, k)).r
    requires end == Completed(net, k) && r == Finished(net, k).1
    ensures Core(end, t)
    ensures r == if KeyAvailable(net.Of(Receiver(net, k)), net.log[k].msg.header)
                 then Success(net.log[k].plaintext) else Failure(DecryptionFailed)
  {
    EitherStays(net, t, Receiver(net, k));
    FinishedParty(net, t, k);
    CompletedCore(net, t, k);
  }

  lemma DeliverInv(net: Net, t: Trace, e: Event)
    requires Inv(net, t) && e.Deliver? && Orderly(net, e)
    ensures Inv(Step(net, e), NextTrace(net, t, e))
    ensures Delivery(net, e.k, e.newKey).1
            == if KeyAvailable(net.Of(Receiver(net, e.k)), net.log[e.k].msg.header)
               then Success(net.log[e.k].plaintext) else Failure(DecryptionFailed)
  {
    ChainOfDelivery(net, t, e.k);
    DeliverNext(net, t, e.k, e.newKey);
  }

  /** A delivery of the receiver's chain or of the next one. */
  lemma DeliverNext(net: Net, t: Trace, k: nat, newKey: nat)
    requires Inv(net, t) && k < |net.log| && newKey !in net.keys
    requires t.chains[k] == t.At(Receiver(net, k)).r || t.chains[k] == t.At(Receiver(net, k)).r + 2
    ensures Inv(Step(net, Deliver(k, newKey)), SyncedTrace(t, Receiver(net, k), t.chains[k]))
    ensures Delivery(net, k, newKey).1
            == if KeyAvailable(net.Of(Receiver(net, k)), net.log[k].msg.header)
               then Success(net.log[k].plaintext) else Failure(DecryptionFailed)
  {
    assert LogEntry(net, t, k);
    DeliverCore(net, t, k, newKey);
    DeliverGots(net, t, k, newKey);
    InvOfParts(Step(net, Deliver(k, newKey)), SyncedTrace(t, Receiver(net, k), t.chains[k]));
  }

  lemma InvOfParts(net: Net, t: Trace)
    requires Core(net, t) && GotOk(net, t, Alice) && GotOk(net, t, Bob)
    ensures Inv(net, t)
  {
  }

  lemma DeliverGots(net: Net, t: Trace, k: nat, newKey: nat)
    requires CanDeliver(net, t, k) && GotOk(net, t, Alice) && GotOk(net, t, Bob)
    requires var p := Receiver(net, k);
             SyncedTrace(t, p, t.chains[k]).At(p).r == t.chains[k]
    ensures var t' := SyncedTrace(t, Receiver(net, k), t.chains[k]);
            GotOk(Step(net, Deliver(k, newKey)), t', Alice) && GotOk(Step(net, Deliver(k, newKey)), t', Bob)
  {
    var p := Receiver(net, k);
    var net', t' := Step(net, Deliver(k, newKey)), SyncedTrace(t, p, t.chains[k]);
    assert k in net'.Got(p) && net'.log == net.log && t'.chains == t.chains;
    assert GotOk(net', t', p);
    var q := Peer(p);
    assert net'.Got(q) == net.Got(q) && t'.At(q) == t.At(q);
    GotKept(net, t, net', t', q);
  }

  lemma StepInv(net: Net, t: Trace, e: Event)
    requires Inv(net, t) && Orderly(net, e)
    ensures Inv(Step(net, e), NextTrace(net, t, e))
    ensures e.Deliver? ==>
              Delivery(net, e.k, e.newKey).1
              == if KeyAvailable(net.Of(Receiver(net, e.k)), net.log[e.k].msg.header)
                 then Success(net.log[e.k].plaintext) else Failure(DecryptionFailed)
  {
    if e.Send? {
      SendInv(net, t, e);
    } else {
      DeliverInv(net, t, e);
    }
  }

  lemma {:induction false} RunInv(net: Net, t: Trace, events: seq<Event>)
    requires Inv(net, t) && OrderlyRun(net, events)
    ensures DecryptWhenAvailable(net, events)
    decreases |events|
  {
    if events != [] {
      StepInv(net, t, events[0]);
      RunInv(Step(net, events[0]), NextTrace(net, t, events[0]), events[1..]);
    }
  }

  /** Every schedule without stale deliveries, from X3DH on: losses, reordering inside a chain,
      repeated deliveries and a full cache included. */
  lemma OrderlyRunsDecrypt(secret: Key, spk: nat, first: nat, ad: Bytes, events: seq<Event>)
    requires spk != first && OrderlyRun(Begin(secret, spk, first, ad), events)
    ensures DecryptWhenAvailable(Begin(secret, spk, first, ad), events)
  {
    BeginInv(secret, spk, first, ad);
    RunInv(Begin(secret, spk, first, ad), Trace(secret, Pos(0, 1), Pos(-1, 0), [0, 0], []), events);
  }

  function Reached(net: Net, events: seq<Event>): Net
    requires OrderlyRun(net, events)
    decreases |events|
  {
    if events == [] then net else Reached(Step(net, events[0]), events[1..])
  }

  lemma {:induction false} ReachedInv(net: Net, t: Trace, events: seq<Event>) returns (t': Trace)
    requires Inv(net, t) && OrderlyRun(net, events)
    ensures Inv(Reached(net, events), t') && t'.secret == t.secret
    decreases |events|
  {
    if events == [] {
      t' := t;
    } else {
      StepInv(net, t, events[0]);
      t' := ReachedInv(Step(net, events[0]), NextTrace(net, t, events[0]), events[1..]);
    }
  }

  /** The entry is the key of that message of the chain that its ratchet key opened, and the chain has
      passed it. */
  ghost predicate CachedRight(x: Session, secret: Key, keys: seq<nat>, slot: Slot)
    requires slot in x.skipped
  {
    && (slot.0 == x.peer ==> slot.1 < x.recvCount)
    && exists c :: 1 <= c < |keys| && slot.0 == Some(Pub(keys[c]))
        && x.skipped[slot] == SlotKey(secret, keys, c, slot.1)
  }

  ghost predicate AllCachedRight(x: Session, secret: Key, keys: seq<nat>) {
    forall slot: Slot | slot in x.skipped :: CachedRight(x, secret, keys, slot)
  }

  lemma CacheRightAt(net: Net, t: Trace)
    requires Inv(net, t)
    ensures AllCachedRight(net.alice, t.secret, net.keys) && AllCachedRight(net.bob, t.secret, net.keys)
  {
    StaysRight(net.alice, t.secret, net.keys, t.lens, t.alice);
    StaysRight(net.bob, t.secret, net.keys, t.lens, t.bob);
  }

  lemma StaysRight(x: Session, secret: Key, keys: seq<nat>, lens: seq<nat>, pos: Pos)
    requires Stays(x, secret, keys, lens, pos) && Distinct(keys)
    ensures AllCachedRight(x, secret, keys)
  {
    forall slot: Slot | slot in x.skipped
      ensures CachedRight(x, secret, keys, slot)
    {
      var c :| IsSlot(x, secret, keys, pos.r, slot, c);
    }
  }

  /** In every state of an orderly run every cached key is the right one for its slot. */
  lemma OrderlyRunsCacheRight(secret: Key, spk: nat, first: nat, ad: Bytes, events: seq<Event>)
    requires spk != first && OrderlyRun(Begin(secret, spk, first, ad), events)
    ensures var net := Reached(Begin(secret, spk, first, ad), events);
            AllCachedRight(net.alice, secret, net.keys) && AllCachedRight(net.bob, secret, net.keys)
  {
    BeginInv(secret, spk, first, ad);
    var t := ReachedInv(Begin(secret, spk, first, ad), Trace(secret, Pos(0, 1), Pos(-1, 0), [0, 0], []), events);
    CacheRightAt(Reached(Begin(secret, spk, first, ad), events), t);
  }
}
