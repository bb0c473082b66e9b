/** Who is in a group: exactly those whom the changes that succeeded put there, as they put them. */
module GroupMembers {
  import opened Wrappers
  import opened GroupState
  import opened GroupService
  import opened GroupRuns

  // ---------------------------------------------------------------- one change

  /** The first entry of the key. */
  ghost predicate FirstEntry(members: seq<Member>, key: PublicKey, k: nat) {
    k < |members| && members[k].key == key && forall j | 0 <= j < k :: members[j].key != key
  }

  /** The role is looked up in the first entry of the key only. */
  lemma {:induction false} FirstEntryDecides(members: seq<Member>, key: PublicKey, roles: set<Role>)
    ensures HasRole(members, key, roles) <==> exists k: nat :: FirstEntry(members, key, k) && members[k].role in roles
  {
    if members != [] {
      FirstEntryDecides(members[1..], key, roles);
      if members[0].key == key {
        assert FirstEntry(members, key, 0);
      } else {
        if k: nat :| FirstEntry(members[1..], key, k) && members[1..][k].role in roles {
          assert members[k + 1] == members[1..][k];
          assert FirstEntry(members, key, k + 1);
        }
        if k: nat :| FirstEntry(members, key, k) && members[k].role in roles {
          assert FirstEntry(members[1..], key, k - 1);
        }
      }
    }
  }

  /** The state differs from the one before in its members, and in what every change sets. */
  predicate SameGroup(s: State, s': State, now: nat) {
    && s'.id == s.id && s'.name == s.name && s'.description == s.description && s'.avatar == s.avatar
    && s'.kind == s.kind && s'.creator == s.creator && s'.createdAt == s.createdAt
    && s'.epoch == s.epoch + 1 && s'.updatedAt == now
  }

  /** An addition succeeds exactly if the group exists, the first entry of the caller is an admin's or owner's,
      and no entry has the new key. It keeps all members as they are, in order, and adds one at the end. */
  lemma AddAppends(me: Identity, s: View, id: GroupId, member: PublicKey, x25519: Bytes, displayName: Bytes,
                   role: Role, now: nat)
    ensures var r := Change(me, s, Add(id, member, x25519, displayName, role), now);
            && (r.Success? <==>
                && id in s.groups
                && (forall k | 0 <= k < |s.groups[id].members| :: s.groups[id].members[k].key != member)
                && exists k: nat :: FirstEntry(s.groups[id].members, me.sign, k)
                                    && s.groups[id].members[k].role in {Admin, Owner})
            && (r.Success? ==>
                var old', new' := s.groups[id].members, r.value.members;
                && SameGroup(s.groups[id], r.value, now) && |new'| == |old'| + 1
                && (forall k | 0 <= k < |old'| :: new'[k] == old'[k])
                && new'[|old'|].key == member && new'[|old'|].x25519 == x25519
                && new'[|old'|].displayName == displayName && new'[|old'|].role == role
                && new'[|old'|].joinedAt == now)
  {
    if id in s.groups {
      FirstEntryDecides(s.groups[id].members, me.sign, {Admin, Owner});
    }
  }

  /** How many entries the key has. */
  function Entries(members: seq<Member>, key: PublicKey): nat {
    if members == [] then 0 else (if members[0].key == key then 1 else 0) + Entries(members[1..], key)
  }

  /** The kept entries are all those of other keys, as they were and in order: `at` says where each one was. */
  ghost predicate KeptAt(members: seq<Member>, key: PublicKey, kept: seq<Member>, at: seq<nat>) {
    && |at| == |kept| == |members| - Entries(members, key)
    && (forall k | 0 <= k < |at| :: at[k] < |members| && kept[k] == members[at[k]] && kept[k].key != key)
    && (forall j, k | 0 <= j < k < |at| :: at[j] < at[k])
  }

  function Moved(at: seq<nat>): seq<nat> {
    seq(|at|, k requires 0 <= k < |at| => at[k] + 1)
  }

  lemma KeptMore(members: seq<Member>, key: PublicKey, kept: seq<Member>, at: seq<nat>)
    requires members != [] && KeptAt(members[1..], key, kept, at)
    ensures members[0].key == key ==> KeptAt(members, key, kept, Moved(at))
    ensures members[0].key != key ==> KeptAt(members, key, [members[0]] + kept, [0] + Moved(at))
  {
  }

  lemma {:induction false} WithoutKeeps(members: seq<Member>, key: PublicKey) returns (at: seq<nat>)
    ensures KeptAt(members, key, Without(members, key), at)
  {
    if members == [] {
      at := [];
    } else {
      var rest := WithoutKeeps(members[1..], key);
      KeptMore(members, key, Without(members[1..], key), rest);
      at := (if members[0].key == key then [] else [0]) + Moved(rest);
      assert Without(members, key) == (if members[0].key == key then [] else [members[0]]) + Without(members[1..], key);
      assert [] + Moved(rest) == Moved(rest) && [] + Without(members[1..], key) == Without(members[1..], key);
    }
  }

  /** A removal succeeds exactly if the group exists and the first entry of the caller is an admin's or owner's;
      a key without an entry may be removed. It takes out the entries of the key and keeps all others. */
  lemma RemovalKeeps(me: Identity, s: View, id: GroupId, member: PublicKey, now: nat) returns (at: seq<nat>)
    ensures var r := Change(me, s, Remove(id, member), now);
            && (r.Success? <==>
                && id in s.groups && exists k: nat :: FirstEntry(s.groups[id].members, me.sign, k)
                                                      && s.groups[id].members[k].role in {Admin, Owner})
            && (r.Success? ==>
                SameGroup(s.groups[id], r.value, now) && KeptAt(s.groups[id].members, member, r.value.members, at))
  {
    at := [];
    if id in s.groups {
      FirstEntryDecides(s.groups[id].members, me.sign, {Admin, Owner});
      at := WithoutKeeps(s.groups[id].members, member);
    }
  }

  // ---------------------------------------------------------------- whole runs

  /** What the changes of a run that succeed make of a key: the member that the last creation or addition of
      it described, until a removal names it. */
  ghost function Told(me: Identity, log: Log, run: seq<Timed>, id: GroupId, key: PublicKey, before: Option<Member>)
    : Option<Member>
    decreases |run|
  {
    if run == [] then before
    else Told(me, Step(me, log, run[0]), run[1..], id, key, Tell(me, log, run[0], id, key, before))
  }

  ghost function Tell(me: Identity, log: Log, e: Timed, id: GroupId, key: PublicKey, before: Option<Member>)
    : Option<Member>
  {
    if e.op.id != id || e.op.Encrypt? || Change(me, log.view, e.op, e.now).Failure? then before
    else
      match e.op
      case Create(_, _, _, _) =>
        var x25519 := if me.x25519 == [] then seq(32, _ => 0) else me.x25519;
        if key == me.sign then Some(Member(key, x25519, CREATOR, e.now, Owner)) else None
      case Add(_, member, x25519, displayName, role) =>
        if key == member then Some(Member(key, x25519, displayName, e.now, role)) else before
      case Remove(_, member) => if key == member then None else before
  }

  /** The key has this entry and no other, or none. */
  ghost predicate EntryIs(members: seq<Member>, key: PublicKey, told: Option<Member>) {
    forall m :: m in members && m.key == key <==> told == Some(m)
  }

  function MembersIn(s: View, id: GroupId): seq<Member> {
    if id in s.groups then s.groups[id].members else []
  }

  lemma {:induction false} WithoutEntries(members: seq<Member>, key: PublicKey)
    ensures forall m :: m in Without(members, key) <==> m in members && m.key != key
  {
    if members != [] {
      WithoutEntries(members[1..], key);
    }
  }

  lemma EntryStep(me: Identity, log: Log, e: Timed, id: GroupId, key: PublicKey, told: Option<Member>)
    requires EntryIs(MembersIn(log.view, id), key, told)
    ensures EntryIs(MembersIn(Step(me, log, e).view, id), key, Tell(me, log, e, id, key, told))
  {
    if e.op.id == id && !e.op.Encrypt? && Change(me, log.view, e.op, e.now).Success? {
      match e.op
      case Create(_, _, _, _) =>
      case Add(_, member, x25519, displayName, role) =>
        AddAppends(me, log.view, id, member, x25519, displayName, role, e.now);
        EntryAdded(log.view.groups[id].members, key, told, Member(member, x25519, displayName, e.now, role));
      case Remove(_, member) => WithoutEntries(log.view.groups[id].members, member);
    }
  }

  lemma EntryAdded(members: seq<Member>, key: PublicKey, told: Option<Member>, m: Member)
    requires EntryIs(members, key, told) && forall k | 0 <= k < |members| :: members[k].key != m.key
    ensures EntryIs(members + [m], key, if key == m.key then Some(m) else told)
  {
  }

  lemma {:induction false} EntriesAfter(me: Identity, log: Log, run: seq<Timed>, id: GroupId, key: PublicKey,
                                        told: Option<Member>)
    requires EntryIs(MembersIn(log.view, id), key, told)
    ensures EntryIs(MembersIn(After(me, log, run).view, id), key, Told(me, log, run, id, key, told))
    decreases |run|
  {
    if run != [] {
      EntryStep(me, log, run[0], id, key, told);
      EntriesAfter(me, Step(me, log, run[0]), run[1..], id, key, Tell(me, log, run[0], id, key, told));
    }
  }

  /** Over any run: a group has an entry with this key, X25519 key, name, time and role exactly if the last
      creation or addition of the key that succeeded gave it so and no later removal named the key. */
  lemma MembersAreTold(me: Identity, run: seq<Timed>, id: GroupId, key: PublicKey, m: Member)
    requires m.key == key
    ensures m in MembersIn(After(me, START, run).view, id) <==> Told(me, START, run, id, key, None) == Some(m)
  {
    EntriesAfter(me, START, run, id, key, None);
    assert m in MembersIn(After(me, START, run).view, id) && m.key == key
           <==> Told(me, START, run, id, key, None) == Some(m);
  }

  predicate Leads(told: Option<Member>) {
    told.Some? && (told.value.role == Admin || told.value.role == Owner)
  }

  lemma LeadsHasRole(members: seq<Member>, key: PublicKey, told: Option<Member>)
    requires EntryIs(members, key, told)
    ensures Authorized(members, key) <==> Leads(told)
    ensures IsMember(members, key) <==> told.Some?
  {
    FirstEntryDecides(members, key, {Admin, Owner});
    if told.Some? {
      assert told.value in members && told.value.key == key;
      var k := FirstOf(members, key);
      assert members[k] in members && members[k].key == key;
    }
    if IsMember(members, key) {
      var k :| 0 <= k < |members| && members[k].key == key;
      assert members[k] in members;
    }
  }

  lemma {:induction false} FirstOf(members: seq<Member>, key: PublicKey) returns (k: nat)
    requires exists m :: m in members && m.key == key
    ensures FirstEntry(members, key, k)
  {
    if members[0].key == key {
      k := 0;
    } else {
      k := FirstOf(members[1..], key);
      k := k + 1;
    }
  }

  /** After any run, what a change answers is decided by what the changes before it told: an addition needs a
      caller who was told an admin or owner and a key that was told none, a removal the caller only. */
  lemma ChangesAllowedExactly(me: Identity, run: seq<Timed>, id: GroupId, member: PublicKey, x25519: Bytes,
                              displayName: Bytes, role: Role, now: nat)
    ensures var view, caller, other := After(me, START, run).view, Told(me, START, run, id, me.sign, None),
                                       Told(me, START, run, id, member, None);
            && (Change(me, view, Add(id, member, x25519, displayName, role), now).Success?
                <==> Leads(caller) && other.None?)
            && (Change(me, view, Remove(id, member), now).Success? <==> Leads(caller))
  {
    var view := After(me, START, run).view;
    EntriesAfter(me, START, run, id, me.sign, None);
    EntriesAfter(me, START, run, id, member, None);
    LeadsHasRole(MembersIn(view, id), me.sign, Told(me, START, run, id, me.sign, None));
    LeadsHasRole(MembersIn(view, id), member, Told(me, START, run, id, member, None));
  }

  // ---------------------------------------------------------------- the rest of the state

  /** What the run says of a group: its creation, and when it last changed and how often. */
  datatype About = About(name: Bytes, description: Bytes, kind: Kind, createdAt: nat, updatedAt: nat, changes: nat)

  ghost function ToldOf(me: Identity, log: Log, run: seq<Timed>, id: GroupId, before: Option<About>): Option<About>
    decreases |run|
  {
    if run == [] then before
    else ToldOf(me, Step(me, log, run[0]), run[1..], id, TellOf(me, log, run[0], id, before))
  }

  ghost function TellOf(me: Identity, log: Log, e: Timed, id: GroupId, before: Option<About>): Option<About> {
    if e.op.id != id || e.op.Encrypt? || Change(me, log.view, e.op, e.now).Failure? then before
    else if e.op.Create? then Some(About(e.op.name, e.op.description, e.op.kind, e.now, e.now, 1))
    else if before.None? then None
    else Some(before.value.(updatedAt := e.now, changes := before.value.changes + 1))
  }

  ghost predicate StateIs(me: Identity, s: View, id: GroupId, told: Option<About>) {
    && (id in s.groups <==> told.Some?)
    && (told.Some? ==>
          var g, a := s.groups[id], told.value;
          && g.id == id && g.name == a.name && g.description == a.description && g.kind == a.kind
          && g.creator == me.sign && g.createdAt == a.createdAt && g.updatedAt == a.updatedAt && g.epoch == a.changes)
  }

  lemma {:induction false} StatesAfter(me: Identity, log: Log, run: seq<Timed>, id: GroupId, told: Option<About>)
    requires StateIs(me, log.view, id, told)
    ensures StateIs(me, After(me, log, run).view, id, ToldOf(me, log, run, id, told))
    decreases |run|
  {
    if run != [] {
      assert StateIs(me, Step(me, log, run[0]).view, id, TellOf(me, log, run[0], id, told));
      StatesAfter(me, Step(me, log, run[0]), run[1..], id, TellOf(me, log, run[0], id, told));
    }
  }

  /** Over any run a group exists exactly if it was created, with the name, description, kind, creator and time
      of its creation; its epoch is the number of changes since, and its last time that of the last one. */
  lemma GroupIsTold(me: Identity, run: seq<Timed>, id: GroupId)
    ensures StateIs(me, After(me, START, run).view, id, ToldOf(me, START, run, id, None))
  {
    StatesAfter(me, START, run, id, None);
  }

  /** A creation succeeds exactly if neither text is too long, in bytes. */
  lemma CreationAllowedExactly(me: Identity, s: View, id: GroupId, name: Bytes, description: Bytes, kind: Kind,
                               now: nat)
    ensures Change(me, s, Create(id, name, description, kind), now).Success?
            <==> |name| <= 128 && |description| <= 512
  {
  }
}
