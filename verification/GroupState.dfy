/** The signed, hash-chained states of a group. Hashes and signatures are terms: a digest determines
    the hashed state, and a signature its signer and the signed state. */
module GroupState {
  import opened Wrappers

  const MAX_NAME: nat := 128
  const MAX_DESCRIPTION: nat := 512

  type PublicKey = Bytes

  type GroupId = Bytes

  datatype Kind = PrivateGroup | PublicGroup | PrivateChannel | PublicChannel

  datatype Role = Ordinary | Admin | Owner

  datatype Member = Member(key: PublicKey, x25519: Bytes, displayName: Bytes, joinedAt: nat, role: Role)

  datatype Digest = NoHash | HashOf(state: State)

  datatype Signature = Signature(signer: PublicKey, body: State)

  datatype State = State(
    id: GroupId,
    epoch: nat,
    name: Bytes,
    description: Bytes,
    avatar: Bytes,
    kind: Kind,
    members: seq<Member>,
    creator: PublicKey,
    createdAt: nat,
    updatedAt: nat,
    signature: Option<Signature>,
    previousHash: Digest)

  datatype Update = Update(state: State, previousHash: Digest, updater: PublicKey, signature: Option<Signature>)

  datatype Error =
    | GroupNotFound | NotAuthorized | AlreadyMember | SenderKeyNotFound | NameTooLong | DescriptionTooLong
    | HashMismatch | StaleEpoch | UpdaterNotAdmin | InvalidSignature

  /** The hash covers the signature. */
  function ComputeHash(s: State): Digest {
    HashOf(s)
  }

  /** What is signed: the state without a signature. */
  function Body(s: State): State {
    s.(signature := None)
  }

  function Signed(s: State, signer: PublicKey): State {
    s.(signature := Some(Signature(signer, Body(s))))
  }

  predicate Verifies(key: PublicKey, body: State, signature: Option<Signature>) {
    signature == Some(Signature(key, body))
  }

  predicate IsMember(members: seq<Member>, key: PublicKey) {
    exists k :: 0 <= k < |members| && members[k].key == key
  }

  predicate Distinct(members: seq<Member>) {
    forall j, k | 0 <= j < k < |members| :: members[j].key != members[k].key
  }

  /** Some entry of the key is one of an admin or owner. */
  predicate IsAdmin(members: seq<Member>, key: PublicKey) {
    exists k :: 0 <= k < |members| && members[k].key == key && (members[k].role == Admin || members[k].role == Owner)
  }

  /** The previous hash is compared only where both hashes are there. */
  predicate Validates(u: Update, current: State) {
    && (u.previousHash != NoHash && current.previousHash != NoHash ==> u.previousHash == ComputeHash(current))
    && u.state.epoch > current.epoch
    && IsAdmin(current.members, u.updater)
    && Verifies(u.updater, Body(u.state), u.signature)
  }

  method ValidateStateUpdate(u: Update, current: State) returns (r: Result<(), Error>)
    ensures r.Success? <==> Validates(u, current)
    ensures r == Failure(StaleEpoch) ==> u.state.epoch <= current.epoch
    ensures r == Failure(HashMismatch) <==>
              u.previousHash != NoHash && current.previousHash != NoHash && u.previousHash != HashOf(current)
    ensures r == Failure(UpdaterNotAdmin) ==> !IsAdmin(current.members, u.updater)
  {
    var currentHash := ComputeHash(current);
    if u.previousHash != NoHash && current.previousHash != NoHash {
      if u.previousHash != currentHash {
        return Failure(HashMismatch);
      }
    }
    if u.state.epoch <= current.epoch {
      return Failure(StaleEpoch);
    }
    var updaterIsAdmin, n := false, 0;
    while n < |current.members| && !updaterIsAdmin
      invariant n <= |current.members|
      invariant updaterIsAdmin ==> IsAdmin(current.members, u.updater)
      invariant !updaterIsAdmin ==> !IsAdmin(current.members[..n], u.updater)
    {
      var member := current.members[n];
      if member.key == u.updater && (member.role == Admin || member.role == Owner) {
        updaterIsAdmin := true;
      }
      n := n + 1;
    }
    assert current.members[..|current.members|] == current.members;
    if !updaterIsAdmin {
      return Failure(UpdaterNotAdmin);
    }
    if !Verifies(u.updater, Body(u.state), u.signature) {
      return Failure(InvalidSignature);
    }
    return Success(());
  }

  // ---------------------------------------------------------------- histories

  /** The i-th state carries epoch i + 1 and the hash of its predecessor, and is signed. */
  ghost predicate Link(me: PublicKey, h: seq<State>, i: nat)
    requires i < |h|
  {
    && h[i].id == h[0].id && h[i].epoch == i + 1
    && h[i].previousHash == (if i == 0 then NoHash else HashOf(h[i - 1]))
    && h[i] == Signed(h[i], me) && Distinct(h[i].members)
    && (i + 1 < |h| ==> IsAdmin(h[i].members, me))
  }

  /** States of one group, each made by the admin `me` from the one before it. */
  ghost predicate Chain(me: PublicKey, h: seq<State>) {
    forall i | 0 <= i < |h| :: Link(me, h, i)
  }

  /** Every update with a state of a history is valid for a state of it exactly if it comes from an admin
      there who signed the new state, the new state is the later one, and the update carries no previous
      hash, or the hash of that state, or that state is the first one. The previous hash of an update is
      not part of what is signed. */
  lemma UpdatesFit(me: PublicKey, h: seq<State>, i: nat, j: nat, u: Update)
    requires Chain(me, h) && i < |h| && j < |h| && u.state == h[j]
    ensures Validates(u, h[i])
            <==> && i < j && IsAdmin(h[i].members, u.updater) && Verifies(u.updater, Body(h[j]), u.signature)
                 && (u.previousHash == NoHash || i == 0 || u.previousHash == HashOf(h[i]))
  {
    assert Link(me, h, i) && Link(me, h, j);
  }

  /** A state as an update of its signer. */
  function AsUpdate(s: State, signer: PublicKey): Update {
    Update(s, s.previousHash, signer, s.signature)
  }

  /** As its signer sends it, a state is a valid update of the state before it and of the first state. */
  lemma SignersUpdatesFit(me: PublicKey, h: seq<State>, i: nat, j: nat)
    requires Chain(me, h) && i < |h| && j < |h|
    ensures Validates(AsUpdate(h[j], me), h[i]) <==> i < j && (i == 0 || i == j - 1)
  {
    UpdatesFit(me, h, i, j, AsUpdate(h[j], me));
    assert Link(me, h, i) && Link(me, h, j);
    if i < j {
      assert Link(me, h, j - 1);
    }
  }

  /** Without its previous hash, a state is a valid update of every earlier state. */
  lemma BareUpdatesFit(me: PublicKey, h: seq<State>, i: nat, j: nat)
    requires Chain(me, h) && i < |h| && j < |h|
    ensures Validates(Update(h[j], NoHash, me, h[j].signature), h[i]) <==> i < j
  {
    UpdatesFit(me, h, i, j, Update(h[j], NoHash, me, h[j].signature));
    assert Link(me, h, i) && Link(me, h, j);
  }

  lemma ShorterChain(me: PublicKey, h: seq<State>)
    requires Chain(me, h) && |h| > 1
    ensures Chain(me, h[..|h| - 1])
    ensures h[|h| - 1].previousHash == HashOf(h[|h| - 2])
  {
    var g := h[..|h| - 1];
    assert Link(me, h, |h| - 1);
    forall i | 0 <= i < |g|
      ensures Link(me, g, i)
    {
      assert Link(me, h, i);
    }
  }

  /** The last state of a history determines all of it. */
  lemma {:induction false} LastStateFixesHistory(me: PublicKey, h: seq<State>, you: PublicKey, g: seq<State>)
    requires Chain(me, h) && Chain(you, g) && h != [] && g != [] && h[|h| - 1] == g[|g| - 1]
    ensures h == g && me == you
    decreases |h|
  {
    var n := |h| - 1;
    assert Link(me, h, n) && Link(you, g, |g| - 1);
    if n > 0 {
      ShorterChain(me, h);
      ShorterChain(you, g);
      LastStateFixesHistory(me, h[..n], you, g[..n]);
      assert h == h[..n] + [h[n]] && g == g[..n] + [g[n]];
    }
  }
}
