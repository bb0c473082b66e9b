/** What a node sends in a group: each payload tells its place, its epoch and its text, and its key comes
    from a chain that only moves forward. */
module GroupSending {
  import opened Wrappers
  import opened GroupState
  import opened GroupService
  import opened GroupRuns

  datatype Sent = Sent(epoch: nat, plaintext: Bytes)

  /** What the run says of a group: how often it changed, at which change the node's key was last renewed, and
      what the node encrypted. */
  datatype Course = Course(changes: nat, renewed: nat, sent: seq<Sent>)

  ghost function Taken(me: Identity, log: Log, run: seq<Timed>, id: GroupId, before: Course): Course
    decreases |run|
  {
    if run == [] then before else Taken(me, Step(me, log, run[0]), run[1..], id, Take(me, log, run[0], id, before))
  }

  /** A removal renews the keys of those who stay; who is removed keeps an old one and may go on sending. */
  ghost function Take(me: Identity, log: Log, e: Timed, id: GroupId, before: Course): Course {
    if e.op.id != id then before
    else if e.op.Encrypt? then
      if before.changes == 0 then before else before.(sent := before.sent + [Sent(before.renewed, e.op.plaintext)])
    else if Change(me, log.view, e.op, e.now).Failure? then before
    else
      var n := before.changes + 1;
      before.(changes := n, renewed := if e.op.Create? || (e.op.Remove? && e.op.member != me.sign) then n
                                       else before.renewed)
  }

  ghost predicate CourseIs(me: PublicKey, h: seq<State>, keys: Keys, sent: seq<Payload>, course: Course) {
    && |h| == course.changes && |sent| == |course.sent|
    && me in keys && keys[me].epoch == course.renewed && keys[me].chainIndex == |sent|
    && (forall k | 0 <= k < |sent| ::
          sent[k].chainIndex == k && sent[k].epoch == course.sent[k].epoch
          && sent[k].plaintext == course.sent[k].plaintext)
  }

  ghost predicate CourseOk(me: Identity, log: Log, id: GroupId, course: Course) {
    if Unknown(log, id) then course == Course(0, 0, [])
    else LogOk(me, log, id)
         && CourseIs(me.sign, log.history[id], log.view.senderKeys[id], SentOf(log, id), course)
  }

  /** The key that the node has after a removal. */
  lemma OwnKeyRenewed(me: Identity, log: Log, e: Timed)
    requires LogOk(me, log, e.op.id) && e.op.Remove? && Change(me, log.view, e.op, e.now).Success?
    ensures var keys, keys' := log.view.senderKeys[e.op.id], Step(me, log, e).view.senderKeys[e.op.id];
            && me.sign in keys && me.sign in keys' && keys'[me.sign].chainIndex == keys[me.sign].chainIndex
            && (e.op.member != me.sign ==>
                  keys'[me.sign].epoch == |log.history[e.op.id]| + 1
                  && DrawOf(keys[me.sign].chainKey) < DrawOf(keys'[me.sign].chainKey))
            && (e.op.member == me.sign ==> keys'[me.sign] == keys[me.sign])
  {
    var id := e.op.id;
    var h, keys := log.history[id], log.view.senderKeys[id];
    var members := Without(h[|h| - 1].members, e.op.member);
    LastState(me.sign, h);
    WithoutMembers(h[|h| - 1].members, e.op.member);
    AuthorizedAdmin(h[|h| - 1].members, me.sign);
    assert IsMember(h[|h| - 1].members, me.sign);
    RotatedOk(keys, members, |h|, log.drawn);
    if e.op.member == me.sign {
      RotatedOther(keys, members, |h| + 1, log.drawn, me.sign);
    }
  }

  lemma CourseStep(me: Identity, log: Log, e: Timed, id: GroupId, course: Course)
    requires Inv(me, log) && Enabled(log, e) && CourseOk(me, log, id, course)
    ensures CourseOk(me, Step(me, log, e), id, Take(me, log, e, id, course))
  {
    StepInv(me, log, e);
    if e.op.id != id {
      OthersStay(me, log, e, id);
    } else if e.op.Remove? && Change(me, log.view, e.op, e.now).Success? {
      OwnKeyRenewed(me, log, e);
    }
  }

  lemma {:induction false} CourseAfter(me: Identity, log: Log, run: seq<Timed>, id: GroupId, course: Course)
    requires Inv(me, log) && Fresh(me, log, run) && CourseOk(me, log, id, course)
    ensures CourseOk(me, After(me, log, run), id, Taken(me, log, run, id, course))
    decreases |run|
  {
    if run != [] {
      CourseStep(me, log, run[0], id, course);
      StepInv(me, log, run[0]);
      CourseAfter(me, Step(me, log, run[0]), run[1..], id, Take(me, log, run[0], id, course));
    }
  }

  /** Over any run, the n-th payload of a node in a group has chain index n, the text of its n-th encryption
      there, and the number of the change that last renewed the node's key as its epoch. */
  lemma PayloadsTold(me: Identity, run: seq<Timed>, id: GroupId)
    requires Fresh(me, START, run)
    ensures var sent, course := SentOf(After(me, START, run), id), Taken(me, START, run, id, Course(0, 0, []));
            && |sent| == |course.sent|
            && forall k | 0 <= k < |sent| ::
                 sent[k].chainIndex == k && sent[k].epoch == course.sent[k].epoch
                 && sent[k].plaintext == course.sent[k].plaintext
  {
    CourseAfter(me, START, run, id, Course(0, 0, []));
    RunInv(me, START, run);
    assert Unknown(After(me, START, run), id) || LogOk(me, After(me, START, run), id);
  }

  // ---------------------------------------------------------------- the chain of keys

  function AdvancedBy(k: ChainKey, n: nat): ChainKey {
    if n == 0 then k else Advanced(AdvancedBy(k, n - 1))
  }

  /** Keys of the epoch lead to the node's key one by one; keys of earlier epochs are from earlier draws. */
  ghost predicate ChainIs(sent: seq<Payload>, own: SenderKey) {
    forall k | 0 <= k < |sent| ::
      && sent[k].epoch <= own.epoch
      && (sent[k].epoch == own.epoch ==> own.chainKey == AdvancedBy(sent[k].key.chainKey, |sent| - k))
      && (sent[k].epoch < own.epoch ==> DrawOf(sent[k].key.chainKey) < DrawOf(own.chainKey))
  }

  ghost predicate Chained(sent: seq<Payload>) {
    forall j, k | 0 <= j < k < |sent| ::
      && (sent[j].epoch == sent[k].epoch ==> sent[k].key.chainKey == AdvancedBy(sent[j].key.chainKey, k - j))
      && (sent[j].epoch < sent[k].epoch ==> DrawOf(sent[j].key.chainKey) < DrawOf(sent[k].key.chainKey))
  }

  ghost predicate ChainsOk(me: Identity, log: Log, id: GroupId) {
    || Unknown(log, id)
    || (LogOk(me, log, id) && ChainIs(SentOf(log, id), log.view.senderKeys[id][me.sign]) && Chained(SentOf(log, id)))
  }

  lemma {:induction false} SameDraw(k: ChainKey, n: nat)
    ensures DrawOf(AdvancedBy(k, n)) == DrawOf(k)
  {
    if n > 0 {
      SameDraw(k, n - 1);
    }
  }

  lemma OneMore(sent: seq<Payload>, own: SenderKey, p: Payload)
    requires ChainIs(sent, own) && Chained(sent) && p.epoch == own.epoch && p.key.chainKey == own.chainKey
    ensures Chained(sent + [p])
    ensures ChainIs(sent + [p], own.(chainKey := Advanced(own.chainKey), chainIndex := own.chainIndex + 1))
  {
    var own' := own.(chainKey := Advanced(own.chainKey), chainIndex := own.chainIndex + 1);
    forall k | 0 <= k < |sent| + 1
      ensures (sent + [p])[k].epoch == own.epoch ==>
                own'.chainKey == AdvancedBy((sent + [p])[k].key.chainKey, |sent| + 1 - k)
    {
      assert AdvancedBy(p.key.chainKey, 1) == Advanced(AdvancedBy(p.key.chainKey, 0));
    }
  }

  lemma Renewed(sent: seq<Payload>, own: SenderKey, own': SenderKey)
    requires ChainIs(sent, own) && own.epoch < own'.epoch && DrawOf(own.chainKey) < DrawOf(own'.chainKey)
    ensures ChainIs(sent, own')
  {
    forall k | 0 <= k < |sent|
      ensures DrawOf(sent[k].key.chainKey) < DrawOf(own'.chainKey)
    {
      SameDraw(sent[k].key.chainKey, |sent| - k);
    }
  }

  lemma ChainsStep(me: Identity, log: Log, e: Timed, id: GroupId)
    requires Inv(me, log) && Enabled(log, e) && ChainsOk(me, log, id)
    ensures ChainsOk(me, Step(me, log, e), id)
  {
    StepInv(me, log, e);
    if e.op.id != id {
      OthersStay(me, log, e, id);
    } else if !Unknown(log, id) {
      var own := log.view.senderKeys[id][me.sign];
      if e.op.Encrypt? {
        OneMore(SentOf(log, id), own, Payload(own.epoch, own.chainIndex, MessageKey(own.chainKey, own.chainIndex),
                                              e.op.plaintext));
      } else if e.op.Remove? && Change(me, log.view, e.op, e.now).Success? {
        OwnKeyRenewed(me, log, e);
        if e.op.member != me.sign {
          Renewed(SentOf(log, id), own, Step(me, log, e).view.senderKeys[id][me.sign]);
        }
      }
    }
  }

  lemma {:induction false} ChainsAfter(me: Identity, log: Log, run: seq<Timed>, id: GroupId)
    requires Inv(me, log) && Fresh(me, log, run) && ChainsOk(me, log, id)
    ensures ChainsOk(me, After(me, log, run), id)
    decreases |run|
  {
    if run != [] {
      ChainsStep(me, log, run[0], id);
      StepInv(me, log, run[0]);
      ChainsAfter(me, Step(me, log, run[0]), run[1..], id);
    }
  }

  /** Over any run, two payloads of one epoch are as many chain steps apart as encryptions, and payloads of a
      later epoch come from a later draw: no chain key is used twice, and none leads to an earlier one. */
  lemma ChainMovesOn(me: Identity, run: seq<Timed>, id: GroupId, j: nat, k: nat)
    requires Fresh(me, START, run) && j < k < |SentOf(After(me, START, run), id)|
    ensures var sent := SentOf(After(me, START, run), id);
            && sent[j].key.chainKey != sent[k].key.chainKey
            && (sent[j].epoch == sent[k].epoch ==> sent[k].key.chainKey == AdvancedBy(sent[j].key.chainKey, k - j))
            && (sent[j].epoch != sent[k].epoch ==> DrawOf(sent[j].key.chainKey) < DrawOf(sent[k].key.chainKey))
  {
    ChainsAfter(me, START, run, id);
    RunInv(me, START, run);
    var log := After(me, START, run);
    assert Unknown(log, id) || LogOk(me, log, id);
    Deeper(SentOf(log, id)[j].key.chainKey, k - j);
  }

  function Depth(k: ChainKey): nat {
    match k
    case Random(_) => 0
    case Advanced(inner) => Depth(inner) + 1
  }

  lemma {:induction false} Deeper(k: ChainKey, n: nat)
    ensures Depth(AdvancedBy(k, n)) == Depth(k) + n
  {
    if n > 0 {
      Deeper(k, n - 1);
    }
  }
}
