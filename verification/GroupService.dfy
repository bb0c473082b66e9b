/** The group service of one node: membership changes, sender-key rotation, and the chain positions of
    encrypted group messages. Randomness is a stream of numbered draws; `drawn` is the next one. */
module GroupService {
  import opened Wrappers
  import opened GroupState

  datatype ChainKey = Random(draw: nat) | Advanced(chainKey: ChainKey)

  datatype MessageKey = MessageKey(chainKey: ChainKey, index: nat)

  datatype SenderKey = SenderKey(chainKey: ChainKey, chainIndex: nat, epoch: nat)

  datatype Payload = Payload(epoch: nat, chainIndex: nat, key: MessageKey, plaintext: Bytes)

  type Keys = map<PublicKey, SenderKey>

  datatype View = View(groups: map<GroupId, State>, senderKeys: map<GroupId, Keys>)

  // ---------------------------------------------------------------- operations

  /** The display name "Creator". */
  const CREATOR: Bytes := [67, 114, 101, 97, 116, 111, 114]

  function NoX25519(): Bytes {
    seq(32, i => 0)
  }

  function Genesis(id: GroupId, name: Bytes, description: Bytes, kind: Kind, me: PublicKey, x25519: Bytes, now: nat)
    : State
  {
    var creator := Member(me, if x25519 == [] then NoX25519() else x25519, CREATOR, now, Owner);
    Signed(State(id, 1, name, description, [], kind, [creator], me, now, now, None, NoHash), me)
  }

  function Next(s: State, members: seq<Member>, me: PublicKey, now: nat): State {
    Signed(s.(epoch := s.epoch + 1, members := members, updatedAt := now, signature := None,
              previousHash := ComputeHash(s)), me)
  }

  /** The first entry of the key has one of the roles. */
  predicate HasRole(members: seq<Member>, key: PublicKey, roles: set<Role>) {
    members != [] && if members[0].key == key then members[0].role in roles else HasRole(members[1..], key, roles)
  }

  predicate Authorized(members: seq<Member>, key: PublicKey) {
    HasRole(members, key, {Admin, Owner})
  }

  function Without(members: seq<Member>, key: PublicKey): seq<Member> {
    if members == [] then []
    else (if members[0].key == key then [] else [members[0]]) + Without(members[1..], key)
  }

  /** Every member gets a new chain key at this epoch, and keeps its chain index. */
  function Rotated(keys: Keys, members: seq<Member>, epoch: nat, drawn: nat): Keys
    decreases |members|
  {
    if members == [] then keys
    else
      var n := |members| - 1;
      var rest := Rotated(keys, members[..n], epoch, drawn);
      var key := members[n].key;
      rest[key := SenderKey(Random(drawn + n), if key in rest then rest[key].chainIndex else 0, epoch)]
  }

  datatype Op =
    | Create(id: GroupId, name: Bytes, description: Bytes, kind: Kind)
    | Add(id: GroupId, member: PublicKey, memberX25519: Bytes, displayName: Bytes, role: Role)
    | Remove(id: GroupId, member: PublicKey)
    | Encrypt(id: GroupId, plaintext: Bytes)

  /** The identity of a node. */
  datatype Identity = Identity(sign: PublicKey, x25519: Bytes)

  function Change(me: Identity, s: View, op: Op, now: nat): Result<State, Error>
    requires !op.Encrypt?
  {
    match op
    case Create(id, name, description, kind) =>
      if |name| > MAX_NAME then Failure(NameTooLong)
      else if |description| > MAX_DESCRIPTION then Failure(DescriptionTooLong)
      else Success(Genesis(id, name, description, kind, me.sign, me.x25519, now))
    case Add(id, member, x25519, displayName, role) =>
      if id !in s.groups then Failure(GroupNotFound)
      else if !Authorized(s.groups[id].members, me.sign) then Failure(NotAuthorized)
      else if IsMember(s.groups[id].members, member) then Failure(AlreadyMember)
      else Success(Next(s.groups[id], s.groups[id].members + [Member(member, x25519, displayName, now, role)], me.sign,
                        now))
    case Remove(id, member) =>
      if id !in s.groups then Failure(GroupNotFound)
      else if !Authorized(s.groups[id].members, me.sign) then Failure(NotAuthorized)
      else Success(Next(s.groups[id], Without(s.groups[id].members, member), me.sign, now))
  }

  function KeysOf(s: View, id: GroupId): Keys {
    if id in s.senderKeys then s.senderKeys[id] else map[]
  }

  /** The sender keys of the group after a successful change. */
  function ChangedKeys(me: Identity, s: View, op: Op, state: State, drawn: nat): Keys
    requires !op.Encrypt?
  {
    match op
    case Create(id, _, _, _) => KeysOf(s, id)[me.sign := SenderKey(Random(drawn), 0, 1)]
    case Add(id, _, _, _, _) => KeysOf(s, id)
    case Remove(id, _) => Rotated(KeysOf(s, id), state.members, state.epoch, drawn)
  }

  function Changed(me: Identity, s: View, op: Op, state: State, drawn: nat): View
    requires !op.Encrypt?
  {
    View(s.groups[op.id := state],
         if op.Add? then s.senderKeys else s.senderKeys[op.id := ChangedKeys(me, s, op, state, drawn)])
  }

  function Encrypted(me: Identity, s: View, id: GroupId, plaintext: Bytes): Result<(View, Payload), Error> {
    if id !in s.senderKeys then Failure(GroupNotFound)
    else if me.sign !in s.senderKeys[id] then Failure(SenderKeyNotFound)
    else
      var k := s.senderKeys[id][me.sign];
      var k' := k.(chainKey := Advanced(k.chainKey), chainIndex := k.chainIndex + 1);
      var keys: Keys := s.senderKeys[id][me.sign := k'];
      Success((s.(senderKeys := s.senderKeys[id := keys]),
               Payload(k.epoch, k.chainIndex, MessageKey(k.chainKey, k.chainIndex), plaintext)))
  }

  // ---------------------------------------------------------------- the service object

  class Service {
    const me: Identity
    var groups: map<GroupId, State>
    var senderKeys: map<GroupId, Keys>

    ghost function Now(): View
      reads this
    {
      View(groups, senderKeys)
    }

    /** Rotation writes into the group's key map, which is there for every group. */
    ghost predicate Valid()
      reads this
    {
      groups.Keys <= senderKeys.Keys
    }

    constructor (me: Identity)
      ensures this.me == me && Valid() && Now() == View(map[], map[])
    {
      this.me := me;
      groups, senderKeys := map[], map[];
    }

    method CreateGroup(id: GroupId, name: Bytes, description: Bytes, kind: Kind, now: nat, drawn: nat)
      returns (r: Result<State, Error>)
      requires Valid()
      modifies this
      ensures Valid() && r == Change(me, old(Now()), Create(id, name, description, kind), now)
      ensures Now() == if r.Success? then Changed(me, old(Now()), Create(id, name, description, kind), r.value, drawn)
                       else old(Now())
    {
      if |name| > MAX_NAME {
        return Failure(NameTooLong);
      }
      if |description| > MAX_DESCRIPTION {
        return Failure(DescriptionTooLong);
      }
      var state := Genesis(id, name, description, kind, me.sign, me.x25519, now);
      if id !in senderKeys {
        senderKeys := senderKeys[id := map[]];
      }
      senderKeys := senderKeys[id := senderKeys[id][me.sign := SenderKey(Random(drawn), 0, 1)]];
      groups := groups[id := state];
      return Success(state);
    }

    method IsMemberWithRole(members: seq<Member>, key: PublicKey, roles: set<Role>) returns (found: bool)
      ensures found <==> HasRole(members, key, roles)
    {
      var n := 0;
      while n < |members|
        invariant n <= |members|
        invariant HasRole(members, key, roles) <==> HasRole(members[n..], key, roles)
      {
        if members[n].key == key {
          return members[n].role in roles;
        }
        n := n + 1;
      }
      return false;
    }

    method AddMember(id: GroupId, member: PublicKey, x25519: Bytes, displayName: Bytes, role: Role, now: nat)
      returns (r: Result<State, Error>)
      requires Valid()
      modifies `groups
      ensures Valid() && r == Change(me, old(Now()), Add(id, member, x25519, displayName, role), now)
      ensures var op := Add(id, member, x25519, displayName, role);
              Now() == if r.Success? then Changed(me, old(Now()), op, r.value, 0) else old(Now())
    {
      if id !in groups {
        return Failure(GroupNotFound);
      }
      var state := groups[id];
      var authorized := IsMemberWithRole(state.members, me.sign, {Admin, Owner});
      if !authorized {
        return Failure(NotAuthorized);
      }
      if IsMember(state.members, member) {
        return Failure(AlreadyMember);
      }
      var newState := Next(state, state.members + [Member(member, x25519, displayName, now, role)], me.sign, now);
      groups := groups[id := newState];
      return Success(newState);
    }

    method RemoveMember(id: GroupId, member: PublicKey, now: nat, drawn: nat) returns (r: Result<State, Error>)
      requires Valid()
      modifies this
      ensures Valid() && r == Change(me, old(Now()), Remove(id, member), now)
      ensures Now() == if r.Success? then Changed(me, old(Now()), Remove(id, member), r.value, drawn) else old(Now())
    {
      if id !in groups {
        return Failure(GroupNotFound);
      }
      var state := groups[id];
      var authorized := IsMemberWithRole(state.members, me.sign, {Admin, Owner});
      if !authorized {
        return Failure(NotAuthorized);
      }
      var newMembers, n := [], 0;
      while n < |state.members|
        invariant n <= |state.members|
        invariant newMembers + Without(state.members[n..], member) == Without(state.members, member)
      {
        if state.members[n].key != member {
          newMembers := newMembers + [state.members[n]];
        }
        n := n + 1;
      }
      assert state.members[n..] == [] && newMembers == Without(state.members, member);
      var newState := Next(state, newMembers, me.sign, now);
      groups := groups[id := newState];
      RotateAllSenderKeys(id, newState, drawn);
      return Success(newState);
    }

    method RotateAllSenderKeys(id: GroupId, state: State, drawn: nat)
      requires Valid() && id in senderKeys
      modifies `senderKeys
      ensures Valid()
      ensures senderKeys
              == old(senderKeys)[id := Rotated(old(senderKeys)[id], state.members, state.epoch, drawn)]
    {
      var n := 0;
      while n < |state.members|
        invariant n <= |state.members| && id in senderKeys
        invariant senderKeys
               == old(senderKeys)[id := Rotated(old(senderKeys)[id], state.members[..n], state.epoch, drawn)]
      {
        var key := state.members[n].key;
        assert state.members[..n + 1][..n] == state.members[..n];
        var senderKey := SenderKey(Random(drawn + n), 0, state.epoch);
        if key in senderKeys[id] {
          senderKey := senderKey.(chainIndex := senderKeys[id][key].chainIndex);
        }
        senderKeys := senderKeys[id := senderKeys[id][key := senderKey]];
        n := n + 1;
      }
      assert state.members[..n] == state.members;
    }

    method EncryptGroupMessage(id: GroupId, plaintext: Bytes) returns (r: Result<Payload, Error>)
      requires Valid()
      modifies `senderKeys
      ensures Valid()
      ensures match Encrypted(me, old(Now()), id, plaintext)
              case Success((s, p)) => Now() == s && r == Success(p)
              case Failure(e) => Now() == old(Now()) && r == Failure(e)
    {
      if id !in senderKeys {
        return Failure(GroupNotFound);
      }
      if me.sign !in senderKeys[id] {
        return Failure(SenderKeyNotFound);
      }
      var senderKey := senderKeys[id][me.sign];
      var messageKey := MessageKey(senderKey.chainKey, senderKey.chainIndex);
      senderKey := senderKey.(chainKey := Advanced(senderKey.chainKey), chainIndex := senderKey.chainIndex + 1);
      senderKeys := senderKeys[id := senderKeys[id][me.sign := senderKey]];
      return Success(Payload(senderKey.epoch, senderKey.chainIndex - 1, messageKey, plaintext));
    }
  }
}
