/** The X3DH key agreement (sections 3.3 and 3.4 of "The X3DH Key Agreement Protocol"). */
module X3DH {
  import opened Wrappers
  import opened Crypto

  datatype Agreement = Agreement(sharedSecret: Key, associatedData: (Pub, Pub))

  /** The initiator: `ek` is the ephemeral key pair that it generates. */
  function Initiator(localIK: nat, remoteIK: Pub, remoteSPK: Pub, remoteOPK: Option<Pub>, ek: nat): Agreement {
    var dh1 := DH(localIK, remoteSPK);
    var dh2 := DH(ek, remoteIK);
    var dh3 := DH(ek, remoteSPK);
    var input := if remoteOPK.Some? then [dh1, dh2, dh3, DH(ek, remoteOPK.value)] else [dh1, dh2, dh3];
    Agreement(Shared(input, (Pub(localIK), remoteIK)), (Pub(localIK), remoteIK))
  }

  /** The responder mirrors the four exchanges with its own private keys. */
  function Responder(localIK: nat, localSPK: nat, localOPK: Option<nat>, remoteIK: Pub, ekPub: Pub): Agreement {
    var dh1 := DH(localSPK, remoteIK);
    var dh2 := DH(localIK, ekPub);
    var dh3 := DH(localSPK, ekPub);
    var input := if localOPK.Some? then [dh1, dh2, dh3, DH(localOPK.value, ekPub)] else [dh1, dh2, dh3];
    Agreement(Shared(input, (remoteIK, Pub(localIK))), (remoteIK, Pub(localIK)))
  }

  function PublicOf(priv: Option<nat>): Option<Pub> {
    match priv
    case None => None
    case Some(id) => Some(Pub(id))
  }

  /** The two sides agree on the secret exactly when each used the key pairs the other one means,
      with the one-time prekey used by both or by neither; and on the associated data exactly when each
      means the other's identity key. */
  lemma SecretsAgree(ikA: nat, ikB: Pub, spkB: Pub, opkB: Option<Pub>, ek: nat,
                     ikB': nat, spkB': nat, opkB': Option<nat>, ikA': Pub, ek': Pub)
    ensures var a := Initiator(ikA, ikB, spkB, opkB, ek);
            var b := Responder(ikB', spkB', opkB', ikA', ek');
            && (a.sharedSecret == b.sharedSecret <==>
                ikA' == Pub(ikA) && ikB == Pub(ikB') && spkB == Pub(spkB') && ek' == Pub(ek) && opkB == PublicOf(opkB'))
            && (a.associatedData == b.associatedData <==> ikA' == Pub(ikA) && ikB == Pub(ikB'))
  {
    var a := Initiator(ikA, ikB, spkB, opkB, ek).sharedSecret;
    var b := Responder(ikB', spkB', opkB', ikA', ek').sharedSecret;
    if a == b {
      assert a.info == b.info;
      assert a.ikm[0] == b.ikm[0] && a.ikm[1] == b.ikm[1] && |a.ikm| == |b.ikm|;
      SamePair(ikA, spkB.id, spkB');
      SamePair(ikB', ek, ek'.id);
      if opkB.Some? {
        assert a.ikm[3] == b.ikm[3];
        SamePair(ek, opkB.value.id, opkB'.value);
      }
    }
    Commutes(ikA, spkB.id);
    Commutes(ek, ikB.id);
    Commutes(ek, spkB.id);
    Commutes(ek, if opkB.Some? then opkB.value.id else 0);
  }

  /** Somebody who has one of the two private keys can compute the exchange. */
  ghost predicate Computable(dh: set<nat>, known: set<nat>) {
    exists k :: k in known && k in dh
  }

  /** Who has some private keys, and all public ones, can compute the secret exactly if they have the
      initiator's ephemeral key and its identity key or the signed prekey, or the responder's identity key,
      its signed prekey and, if one was used, its one-time prekey. */
  lemma SecretKnownExactly(ikA: nat, ikB: Pub, spkB: Pub, opkB: Option<Pub>, ek: nat, known: set<nat>)
    ensures var secret := Initiator(ikA, ikB, spkB, opkB, ek).sharedSecret;
            && secret.Shared?
            && ((forall k | 0 <= k < |secret.ikm| :: Computable(secret.ikm[k], known))
                <==> || (ek in known && (ikA in known || spkB.id in known))
                     || (ikB.id in known && spkB.id in known && (opkB.Some? ==> opkB.value.id in known)))
  {
    var ikm := Initiator(ikA, ikB, spkB, opkB, ek).sharedSecret.ikm;
    OneOfTwo(ikA, spkB, known);
    OneOfTwo(ek, ikB, known);
    OneOfTwo(ek, spkB, known);
    assert |ikm| >= 3 && ikm[0] == DH(ikA, spkB) && ikm[1] == DH(ek, ikB) && ikm[2] == DH(ek, spkB);
    if opkB.Some? {
      OneOfTwo(ek, opkB.value, known);
      assert |ikm| == 4 && ikm[3] == DH(ek, opkB.value);
    }
  }

  lemma OneOfTwo(priv: nat, pub: Pub, known: set<nat>)
    ensures Computable(DH(priv, pub), known) <==> priv in known || pub.id in known
  {
    assert priv in DH(priv, pub) && pub.id in DH(priv, pub);
  }

  /** Both ends of an exchange compute the same value. */
  lemma Commutes(x: nat, y: nat)
    ensures DH(x, Pub(y)) == DH(y, Pub(x))
  {
  }

  /** Unordered pairs with a common member are equal only if the other members are. */
  lemma SamePair(x: nat, y: nat, z: nat)
    requires {x, y} == {x, z}
    ensures y == z
  {
    assert y in {x, z} && z in {x, y};
  }
}
