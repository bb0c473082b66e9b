/** Whole runs of the group service of one node: its histories, its sender keys, and what it sends. */
module GroupRuns {
  import opened Wrappers
  import opened GroupState
  import opened GroupService

  datatype Timed = Timed(op: Op, now: nat)

  /** The service, every state and payload it made for a group, and the next random draw. */
  datatype Log = Log(view: View, history: map<GroupId, seq<State>>, sent: map<GroupId, seq<Payload>>, drawn: nat)

  const START := Log(View(map[], map[]), map[], map[], 0)

  function HistoryOf(log: Log, id: GroupId): seq<State> {
    if id in log.history then log.history[id] else []
  }

  function SentOf(log: Log, id: GroupId): seq<Payload> {
    if id in log.sent then log.sent[id] else []
  }

  function Draws(op: Op, state: State): nat {
    if op.Create? then 1 else if op.Remove? then |state.members| else 0
  }

  function Step(me: Identity, log: Log, e: Timed): Log {
    if e.op.Encrypt? then
      match Encrypted(me, log.view, e.op.id, e.op.plaintext)
      case Failure(_) => log
      case Success((view, p)) => log.(view := view, sent := log.sent[e.op.id := SentOf(log, e.op.id) + [p]])
    else
      match Change(me, log.view, e.op, e.now)
      case Failure(_) => log
      case Success(state) =>
        Log(Changed(me, log.view, e.op, state, log.drawn), log.history[e.op.id := HistoryOf(log, e.op.id) + [state]],
            log.sent, log.drawn + Draws(e.op, state))
  }

  predicate Enabled(log: Log, e: Timed) {
    e.op.Create? ==> e.op.id !in log.history
  }

  /** New groups get new identifiers: 32 random bytes. */
  ghost predicate Fresh(me: Identity, log: Log, run: seq<Timed>)
    decreases |run|
  {
    run != [] ==> Enabled(log, run[0]) && Fresh(me, Step(me, log, run[0]), run[1..])
  }

  function After(me: Identity, log: Log, run: seq<Timed>): Log
    decreases |run|
  {
    if run == [] then log else After(me, Step(me, log, run[0]), run[1..])
  }

  // ---------------------------------------------------------------- member lists

  lemma {:induction false} AuthorizedAdmin(members: seq<Member>, key: PublicKey)
    requires Authorized(members, key)
    ensures IsAdmin(members, key)
  {
    if members[0].key != key {
      AuthorizedAdmin(members[1..], key);
      var k :| 0 <= k < |members[1..]| && members[1..][k].key == key
          && (members[1..][k].role == Admin || members[1..][k].role == Owner);
      assert members[k + 1].key == key;
    }
  }

  lemma {:induction false} WithoutMembers(members: seq<Member>, key: PublicKey)
    ensures forall x :: IsMember(Without(members, key), x) <==> IsMember(members, x) && x != key
    ensures Distinct(members) ==> Distinct(Without(members, key))
  {
    if members != [] {
      var tail := members[1..];
      var rest := Without(tail, key);
      WithoutMembers(tail, key);
      var first := if members[0].key == key then [] else [members[0]];
      assert Without(members, key) == first + rest;
      forall x
        ensures IsMember(first + rest, x) <==> IsMember(members, x) && x != key
      {
        assert members == [members[0]] + tail;
        MemberOfConcat(first, rest, x);
        MemberOfConcat([members[0]], tail, x);
      }
      if Distinct(members) && first != [] {
        assert !IsMember(tail, members[0].key);
        assert forall k | 0 <= k < |rest| :: rest[k].key != members[0].key;
      }
    }
  }

  lemma MemberOfConcat(a: seq<Member>, b: seq<Member>, x: PublicKey)
    ensures IsMember(a + b, x) <==> IsMember(a, x) || IsMember(b, x)
  {
    if IsMember(a, x) {
      var k :| 0 <= k < |a| && a[k].key == x;
      assert (a + b)[k].key == x;
    }
    if IsMember(b, x) {
      var k :| 0 <= k < |b| && b[k].key == x;
      assert (a + b)[|a| + k].key == x;
    }
  }

  lemma LongerChain(me: PublicKey, h: seq<State>, members: seq<Member>, now: nat)
    requires Chain(me, h) && h != [] && Distinct(members) && IsAdmin(h[|h| - 1].members, me)
    ensures Chain(me, h + [Next(h[|h| - 1], members, me, now)])
  {
    var g := h + [Next(h[|h| - 1], members, me, now)];
    assert Link(me, h, |h| - 1);
    forall i | 0 <= i < |g|
      ensures Link(me, g, i)
    {
      if i < |h| {
        assert Link(me, h, i);
      }
    }
  }

  // ---------------------------------------------------------------- rotation

  function DrawOf(k: ChainKey): nat {
    match k
    case Random(draw) => draw
    case Advanced(inner) => DrawOf(inner)
  }

  /** The new key of the n-th member: its own draw, this epoch, the old index. */
  lemma {:induction false} RotatedMember(keys: Keys, members: seq<Member>, epoch: nat, drawn: nat, n: nat)
    requires Distinct(members) && n < |members|
    ensures var key := members[n].key;
            key in Rotated(keys, members, epoch, drawn)
            && Rotated(keys, members, epoch, drawn)[key]
               == SenderKey(Random(drawn + n), if key in keys then keys[key].chainIndex else 0, epoch)
    decreases |members|
  {
    var last := |members| - 1;
    if n < last {
      RotatedMember(keys, members[..last], epoch, drawn, n);
    } else {
      RotatedOther(keys, members[..last], epoch, drawn, members[n].key);
    }
  }

  lemma {:induction false} RotatedOther(keys: Keys, members: seq<Member>, epoch: nat, drawn: nat, key: PublicKey)
    requires !IsMember(members, key)
    ensures key in Rotated(keys, members, epoch, drawn) <==> key in keys
    ensures key in keys ==> Rotated(keys, members, epoch, drawn)[key] == keys[key]
    decreases |members|
  {
    if members != [] {
      var last := |members| - 1;
      assert members[last].key != key;
      assert forall k | 0 <= k < last :: members[..last][k] == members[k];
      RotatedOther(keys, members[..last], epoch, drawn, key);
    }
  }

  // ---------------------------------------------------------------- invariant

  /** Keys are of the group's epoch or an older one, each from its own draw. */
  ghost predicate KeysOk(keys: Keys, epoch: nat, drawn: nat) {
    && (forall k | k in keys :: keys[k].epoch <= epoch && DrawOf(keys[k].chainKey) < drawn)
    && (forall j, k | j in keys && k in keys && j != k :: DrawOf(keys[j].chainKey) != DrawOf(keys[k].chainKey))
  }

  ghost predicate Increasing(sent: seq<Payload>) {
    forall j, k | 0 <= j < k < |sent| :: sent[j].epoch <= sent[k].epoch && sent[j].chainIndex < sent[k].chainIndex
  }

  ghost predicate SentOk(sent: seq<Payload>, own: SenderKey) {
    && Increasing(sent)
    && forall k | 0 <= k < |sent| ::
         && sent[k].epoch <= own.epoch && sent[k].chainIndex < own.chainIndex
         && sent[k].key.index == sent[k].chainIndex
  }

  /** The states, the sender keys and the payloads of one group. */
  ghost predicate GroupOk(me: PublicKey, id: GroupId, h: seq<State>, keys: Keys, sent: seq<Payload>, drawn: nat) {
    && h != [] && h[0].id == id && Chain(me, h)
    && me in keys && KeysOk(keys, |h|, drawn) && SentOk(sent, keys[me])
  }

  ghost predicate LogOk(me: Identity, log: Log, id: GroupId) {
    && id in log.history && id in log.view.groups && id in log.view.senderKeys
    && GroupOk(me.sign, id, log.history[id], log.view.senderKeys[id], SentOf(log, id), log.drawn)
    && log.view.groups[id] == log.history[id][|log.history[id]| - 1]
  }

  predicate Unknown(log: Log, id: GroupId) {
    id !in log.history && id !in log.view.groups && id !in log.view.senderKeys && id !in log.sent
  }

  ghost predicate Inv(me: Identity, log: Log) {
    forall id: GroupId :: Unknown(log, id) || LogOk(me, log, id)
  }

  lemma RotatedOk(keys: Keys, members: seq<Member>, epoch: nat, drawn: nat)
    requires KeysOk(keys, epoch, drawn) && Distinct(members)
    ensures KeysOk(Rotated(keys, members, epoch + 1, drawn), epoch + 1, drawn + |members|)
    ensures forall k | k in Rotated(keys, members, epoch + 1, drawn) ::
              Rotated(keys, members, epoch + 1, drawn)[k].epoch == epoch + 1 <==> IsMember(members, k)
    ensures forall k | k in keys ::
              && k in Rotated(keys, members, epoch + 1, drawn)
              && Rotated(keys, members, epoch + 1, drawn)[k].chainIndex == keys[k].chainIndex
              && Rotated(keys, members, epoch + 1, drawn)[k].epoch >= keys[k].epoch
    ensures forall k | IsMember(members, k) ::
              && k in Rotated(keys, members, epoch + 1, drawn)
              && drawn <= DrawOf(Rotated(keys, members, epoch + 1, drawn)[k].chainKey)
  {
    var newKeys := Rotated(keys, members, epoch + 1, drawn);
    forall n | 0 <= n < |members|
      ensures members[n].key in newKeys
      ensures newKeys[members[n].key]
              == SenderKey(Random(drawn + n),
                           if members[n].key in keys then keys[members[n].key].chainIndex else 0, epoch + 1)
    {
      RotatedMember(keys, members, epoch + 1, drawn, n);
    }
    forall k | !IsMember(members, k)
      ensures k in newKeys <==> k in keys
      ensures k in keys ==> newKeys[k] == keys[k]
    {
      RotatedOther(keys, members, epoch + 1, drawn, k);
    }
  }

  lemma LastState(me: PublicKey, h: seq<State>)
    requires Chain(me, h) && h != []
    ensures h[|h| - 1].id == h[0].id && h[|h| - 1].epoch == |h| && Distinct(h[|h| - 1].members)
  {
    assert Link(me, h, |h| - 1);
  }

  lemma FirstOk(me: PublicKey, s: State, drawn: nat)
    requires s.epoch == 1 && s.previousHash == NoHash && s == Signed(s, me) && Distinct(s.members)
    ensures GroupOk(me, s.id, [s], map[me := SenderKey(Random(drawn), 0, 1)], [], drawn + 1)
  {
    assert Link(me, [s], 0);
  }

  lemma NextOk(me: PublicKey, id: GroupId, h: seq<State>, keys: Keys, keys': Keys, sent: seq<Payload>, drawn: nat,
               drawn': nat, members: seq<Member>, now: nat)
    requires GroupOk(me, id, h, keys, sent, drawn)
    requires Authorized(h[|h| - 1].members, me) && Distinct(members)
    requires KeysOk(keys', |h| + 1, drawn') && me in keys'
    requires keys[me].chainIndex == keys'[me].chainIndex && keys[me].epoch <= keys'[me].epoch
    ensures GroupOk(me, id, h + [Next(h[|h| - 1], members, me, now)], keys', sent, drawn')
  {
    AuthorizedAdmin(h[|h| - 1].members, me);
    LongerChain(me, h, members, now);
  }

  lemma EncryptOk(me: PublicKey, id: GroupId, h: seq<State>, keys: Keys, sent: seq<Payload>, drawn: nat,
                  plaintext: Bytes)
    requires GroupOk(me, id, h, keys, sent, drawn)
    ensures var k := keys[me];
            GroupOk(me, id, h, keys[me := k.(chainKey := Advanced(k.chainKey), chainIndex := k.chainIndex + 1)],
                    sent + [Payload(k.epoch, k.chainIndex, MessageKey(k.chainKey, k.chainIndex), plaintext)], drawn)
  {
  }

  lemma LaterDraws(me: PublicKey, id: GroupId, h: seq<State>, keys: Keys, sent: seq<Payload>, drawn: nat, drawn': nat)
    requires GroupOk(me, id, h, keys, sent, drawn) && drawn <= drawn'
    ensures GroupOk(me, id, h, keys, sent, drawn')
  {
  }

  /** Two logs agree on a group. */
  predicate Same(log: Log, log': Log, id: GroupId) {
    && (id in log'.history <==> id in log.history) && HistoryOf(log', id) == HistoryOf(log, id)
    && (id in log'.sent <==> id in log.sent) && SentOf(log', id) == SentOf(log, id)
    && (id in log'.view.groups <==> id in log.view.groups)
    && (id in log.view.groups ==> log'.view.groups[id] == log.view.groups[id])
    && (id in log'.view.senderKeys <==> id in log.view.senderKeys) && KeysOf(log'.view, id) == KeysOf(log.view, id)
  }

  /** Only the group of the operation changes. */
  lemma OthersStay(me: Identity, log: Log, e: Timed, id: GroupId)
    requires id != e.op.id
    ensures Same(log, Step(me, log, e), id) && log.drawn <= Step(me, log, e).drawn
  {
  }

  lemma SameOk(me: Identity, log: Log, log': Log, id: GroupId)
    requires LogOk(me, log, id) && Same(log, log', id) && log.drawn <= log'.drawn
    ensures LogOk(me, log', id)
  {
    LaterDraws(me.sign, id, log.history[id], log.view.senderKeys[id], SentOf(log, id), log.drawn, log'.drawn);
  }

  lemma CreateOk(me: Identity, log: Log, e: Timed)
    requires Unknown(log, e.op.id) && e.op.Create? && Change(me, log.view, e.op, e.now).Success?
    ensures LogOk(me, Step(me, log, e), e.op.id)
  {
    FirstOk(me.sign, Change(me, log.view, e.op, e.now).value, log.drawn);
  }

  lemma AddOk(me: Identity, log: Log, e: Timed)
    requires LogOk(me, log, e.op.id) && e.op.Add? && Change(me, log.view, e.op, e.now).Success?
    ensures LogOk(me, Step(me, log, e), e.op.id)
  {
    var id := e.op.id;
    var h, keys := log.history[id], log.view.senderKeys[id];
    var s := h[|h| - 1];
    LastState(me.sign, h);
    var members := s.members + [GroupState.Member(e.op.member, e.op.memberX25519, e.op.displayName, e.now, e.op.role)];
    NextOk(me.sign, id, h, keys, keys, SentOf(log, id), log.drawn, log.drawn, members, e.now);
  }

  lemma RemoveOk(me: Identity, log: Log, e: Timed)
    requires LogOk(me, log, e.op.id) && e.op.Remove? && Change(me, log.view, e.op, e.now).Success?
    ensures LogOk(me, Step(me, log, e), e.op.id)
  {
    var id := e.op.id;
    var h, keys := log.history[id], log.view.senderKeys[id];
    var members := Without(h[|h| - 1].members, e.op.member);
    RemovedOk(me.sign, id, h, keys, SentOf(log, id), log.drawn, e.op.member, members, e.now);
    LastState(me.sign, h);
    var state := Change(me, log.view, e.op, e.now).value;
    assert state == Next(h[|h| - 1], members, me.sign, e.now);
  }

  lemma RemovedOk(me: PublicKey, id: GroupId, h: seq<State>, keys: Keys, sent: seq<Payload>, drawn: nat,
                  member: PublicKey, members: seq<Member>, now: nat)
    requires GroupOk(me, id, h, keys, sent, drawn) && Authorized(h[|h| - 1].members, me)
    requires members == Without(h[|h| - 1].members, member)
    ensures GroupOk(me, id, h + [Next(h[|h| - 1], members, me, now)], Rotated(keys, members, |h| + 1, drawn), sent,
                    drawn + |members|)
  {
    LastState(me, h);
    WithoutMembers(h[|h| - 1].members, member);
    RotatedOk(keys, members, |h|, drawn);
    NextOk(me, id, h, keys, Rotated(keys, members, |h| + 1, drawn), sent, drawn, drawn + |members|, members, now);
  }

  lemma EncryptionOk(me: Identity, log: Log, e: Timed)
    requires LogOk(me, log, e.op.id) && e.op.Encrypt?
    ensures LogOk(me, Step(me, log, e), e.op.id)
  {
    var id := e.op.id;
    EncryptOk(me.sign, id, log.history[id], log.view.senderKeys[id], SentOf(log, id), log.drawn, e.op.plaintext);
  }

  lemma ChangedOk(me: Identity, log: Log, e: Timed)
    requires (Unknown(log, e.op.id) || LogOk(me, log, e.op.id)) && Enabled(log, e)
    ensures Unknown(Step(me, log, e), e.op.id) || LogOk(me, Step(me, log, e), e.op.id)
  {
    if Step(me, log, e) != log {
      match e.op
      case Create(_, _, _, _) => CreateOk(me, log, e);
      case Add(_, _, _, _, _) => AddOk(me, log, e);
      case Remove(_, _) => RemoveOk(me, log, e);
      case Encrypt(_, _) => EncryptionOk(me, log, e);
    }
  }

  lemma StepInv(me: Identity, log: Log, e: Timed)
    requires Inv(me, log) && Enabled(log, e)
    ensures Inv(me, Step(me, log, e))
  {
    ChangedOk(me, log, e);
    forall id: GroupId | id != e.op.id
      ensures Unknown(Step(me, log, e), id) || LogOk(me, Step(me, log, e), id)
    {
      OthersStay(me, log, e, id);
      if LogOk(me, log, id) {
        SameOk(me, log, Step(me, log, e), id);
      }
    }
  }

  lemma {:induction false} RunInv(me: Identity, log: Log, run: seq<Timed>)
    requires Inv(me, log) && Fresh(me, log, run)
    ensures Inv(me, After(me, log, run))
    decreases |run|
  {
    if run != [] {
      StepInv(me, log, run[0]);
      RunInv(me, Step(me, log, run[0]), run[1..]);
    }
  }

  // ---------------------------------------------------------------- main results

  /** After any run a group's states form a signed hash chain that ends in the current state, and a
      state is a valid update exactly of its predecessor and of the group's first state. */
  lemma HistoryIsChain(me: Identity, run: seq<Timed>, id: GroupId)
    requires Fresh(me, START, run) && id in After(me, START, run).view.groups
    ensures var log := After(me, START, run);
            && id in log.history && Chain(me.sign, log.history[id]) && log.history[id] != []
            && log.view.groups[id] == log.history[id][|log.history[id]| - 1]
            && forall i, j | 0 <= i < |log.history[id]| && 0 <= j < |log.history[id]| ::
                 Validates(AsUpdate(log.history[id][j], me.sign), log.history[id][i])
                 <==> i < j && (i == 0 || i == j - 1)
  {
    RunInv(me, START, run);
    var log := After(me, START, run);
    assert LogOk(me, log, id);
    forall i, j | 0 <= i < |log.history[id]| && 0 <= j < |log.history[id]|
      ensures Validates(AsUpdate(log.history[id][j], me.sign), log.history[id][i]) <==> i < j && (i == 0 || i == j - 1)
    {
      SignersUpdatesFit(me.sign, log.history[id], i, j);
    }
  }

  /** Exactly the members hold keys of the state's epoch, from draws later than every key before; the
      keys of others and all chain indices are as before. */
  ghost predicate Rekeyed(keys: Keys, keys': Keys, state: State) {
    && (forall k | k in keys' ::
          && keys'[k].epoch <= state.epoch
          && (keys'[k].epoch == state.epoch <==> IsMember(state.members, k)))
    && (forall k | IsMember(state.members, k) :: k in keys')
    && (forall j, k | j in keys && IsMember(state.members, k) :: DrawOf(keys[j].chainKey) < DrawOf(keys'[k].chainKey))
    && (forall k | k in keys :: k in keys' && keys'[k].chainIndex == keys[k].chainIndex)
    && (forall k | k in keys && !IsMember(state.members, k) :: keys'[k] == keys[k])
  }

  lemma RotationRekeys(keys: Keys, state: State, drawn: nat)
    requires state.epoch >= 1 && KeysOk(keys, state.epoch - 1, drawn) && Distinct(state.members)
    ensures Rekeyed(keys, Rotated(keys, state.members, state.epoch, drawn), state)
  {
    RotatedOk(keys, state.members, state.epoch - 1, drawn);
    forall k | k in keys && !IsMember(state.members, k)
      ensures Rotated(keys, state.members, state.epoch, drawn)[k] == keys[k]
    {
      RotatedOther(keys, state.members, state.epoch, drawn, k);
    }
  }

  /** Right after a removal, the sender keys of the new epoch are exactly those of the remaining members. */
  lemma RemovalRotates(me: Identity, run: seq<Timed>, id: GroupId, member: PublicKey, now: nat)
    requires Fresh(me, START, run) && Change(me, After(me, START, run).view, Remove(id, member), now).Success?
    ensures var before := After(me, START, run).view;
            var state := Change(me, before, Remove(id, member), now).value;
            var after := Step(me, After(me, START, run), Timed(Remove(id, member), now)).view;
            && id in after.groups && after.groups[id] == state
            && Rekeyed(KeysOf(before, id), KeysOf(after, id), state)
            && id in before.groups
            && forall k :: IsMember(state.members, k) <==> IsMember(before.groups[id].members, k) && k != member
  {
    RunInv(me, START, run);
    var log := After(me, START, run);
    assert LogOk(me, log, id);
    LastState(me.sign, log.history[id]);
    WithoutMembers(log.view.groups[id].members, member);
    RotationRekeys(KeysOf(log.view, id), Change(me, log.view, Remove(id, member), now).value, log.drawn);
  }

  /** One event keeps a sender's key, or replaces it by a later one. */
  lemma KeyMovesOn(me: Identity, log: Log, e: Timed, id: GroupId, key: PublicKey)
    requires LogOk(me, log, id) && Enabled(log, e) && key in log.view.senderKeys[id]
    ensures var view := Step(me, log, e).view;
            && id in view.senderKeys && key in view.senderKeys[id]
            && log.view.senderKeys[id][key].chainIndex <= view.senderKeys[id][key].chainIndex
            && log.view.senderKeys[id][key].epoch <= view.senderKeys[id][key].epoch
  {
    LastState(me.sign, log.history[id]);
    if e.op.Remove? && e.op.id == id && Step(me, log, e) != log {
      var members := Without(log.view.groups[id].members, e.op.member);
      WithoutMembers(log.view.groups[id].members, e.op.member);
      RotatedOk(log.view.senderKeys[id], members, |log.history[id]|, log.drawn);
    }
  }

  /** Along any run no sender's chain index falls, nor does its epoch; no key is of a later epoch than
      its group. */
  lemma {:induction false} IndicesNeverFall(me: Identity, log: Log, run: seq<Timed>, id: GroupId, key: PublicKey)
    requires Inv(me, log) && Fresh(me, log, run) && id in log.view.senderKeys && key in log.view.senderKeys[id]
    ensures var view := After(me, log, run).view;
            && id in view.senderKeys && id in view.groups && key in view.senderKeys[id]
            && log.view.senderKeys[id][key].chainIndex <= view.senderKeys[id][key].chainIndex
            && log.view.senderKeys[id][key].epoch <= view.senderKeys[id][key].epoch <= view.groups[id].epoch
    decreases |run|
  {
    assert LogOk(me, log, id);
    if run == [] {
      LastState(me.sign, log.history[id]);
    } else {
      KeyMovesOn(me, log, run[0], id, key);
      StepInv(me, log, run[0]);
      IndicesNeverFall(me, Step(me, log, run[0]), run[1..], id, key);
    }
  }

  /** Over any run, the chain indices that a node sends in a group strictly increase while the epochs do
      not fall, so no two of its payloads have the same message key. */
  lemma PayloadsIncrease(me: Identity, run: seq<Timed>, id: GroupId)
    requires Fresh(me, START, run)
    ensures Increasing(SentOf(After(me, START, run), id))
    ensures var sent := SentOf(After(me, START, run), id);
            forall j, k | 0 <= j < k < |sent| :: sent[j].key != sent[k].key
  {
    RunInv(me, START, run);
    var log := After(me, START, run);
    assert Unknown(log, id) || LogOk(me, log, id);
  }
}
