/** One round of retrieval: fetch from every mailbox, then acknowledge everything to every mailbox,
    while senders deposit and mailboxes drop messages. All boxes are those of one recipient. */
module MailboxRetrieval {
  import opened Wrappers
  import opened MailboxStorage

  /** `fetched` and `acked` count the mailboxes that were asked so far. */
  datatype Round = Round(boxes: seq<Box>, fetched: nat, acked: nat, envelopes: seq<Bytes>, ids: seq<Id>)

  datatype Event =
    | Deposit(i: nat, m: Stored)          // a sender stores a message at mailbox i
    | Drop(i: nat, dropped: set<Id>)      // mailbox i evicts or expires messages
    | Fetch(now: nat, answers: bool)      // the next mailbox is asked for its messages
    | Ack(arrives: bool)                  // the next mailbox is told to delete the fetched ones

  predicate Enabled(s: Round, e: Event) {
    match e
    case Deposit(i, _) => i < |s.boxes|
    case Drop(i, _) => i < |s.boxes|
    case Fetch(_, _) => s.fetched < |s.boxes| && s.acked == 0
    case Ack(_) => s.fetched == |s.boxes| && s.acked < |s.boxes| && s.ids != []
  }

  function IdsOf(messages: seq<Stored>): seq<Id> {
    if messages == [] then [] else [messages[0].id] + IdsOf(messages[1..])
  }

  /** An envelope that does not parse is skipped, but its identifier is not. */
  function Parsed(parses: Bytes -> bool, messages: seq<Stored>): seq<Bytes> {
    if messages == [] then []
    else (if parses(messages[0].envelope) then [messages[0].envelope] else []) + Parsed(parses, messages[1..])
  }

  ghost function Step(parses: Bytes -> bool, s: Round, e: Event): Round
    requires Enabled(s, e)
  {
    match e
    case Deposit(i, m) =>
      var box: Box := s.boxes[i][m.id := m];
      s.(boxes := s.boxes[i := box])
    case Drop(i, dropped) => s.(boxes := s.boxes[i := s.boxes[i] - dropped])
    case Fetch(now, answers) =>
      if !answers then s.(fetched := s.fetched + 1)
      else
        var messages := Listing(s.boxes[s.fetched], now);
        s.(fetched := s.fetched + 1, envelopes := s.envelopes + Parsed(parses, messages),
           ids := s.ids + IdsOf(messages))
    case Ack(arrives) =>
      var boxes := if arrives then s.boxes[s.acked := s.boxes[s.acked] - IdSet(s.ids)] else s.boxes;
      s.(boxes := boxes, acked := s.acked + 1)
  }

  ghost predicate ValidRun(parses: Bytes -> bool, s: Round, run: seq<Event>)
    decreases |run|
  {
    run != [] ==> Enabled(s, run[0]) && ValidRun(parses, Step(parses, s, run[0]), run[1..])
  }

  ghost function After(parses: Bytes -> bool, s: Round, run: seq<Event>): Round
    requires ValidRun(parses, s, run)
    decreases |run|
  {
    if run == [] then s else After(parses, Step(parses, s, run[0]), run[1..])
  }

  // ---------------------------------------------------------------- identifiers are unique

  /** Message identifiers are unique: `content` says which envelope each one names, and records are
      filed under their own identifier. */
  ghost predicate Unique(content: Id -> Bytes, box: Box) {
    forall k | k in box :: box[k].id == k && box[k].envelope == content(k)
  }

  ghost predicate UniqueRun(content: Id -> Bytes, s: Round, run: seq<Event>) {
    && (forall i | 0 <= i < |s.boxes| :: Unique(content, s.boxes[i]))
    && (forall k | 0 <= k < |run| && run[k].Deposit? :: run[k].m.envelope == content(run[k].m.id))
  }

  lemma {:induction false} ListingParts(content: Id -> Bytes, parses: Bytes -> bool, box: Box, now: nat)
    requires Unique(content, box)
    ensures forall id | id in IdsOf(Listing(box, now)) :: id in box
    ensures forall id | id in IdsOf(Listing(box, now)) ::
              parses(content(id)) ==> content(id) in Parsed(parses, Listing(box, now))
    ensures forall e | e in Parsed(parses, Listing(box, now)) :: parses(e)
    decreases |box|
  {
    if box != map[] {
      var k := Least(box.Keys);
      SmallerBox(box, k);
      ListingParts(content, parses, box - {k}, now);
      var rest := Listing(box - {k}, now);
      if !Expired(box[k], now) {
        assert ([box[k]] + rest)[1..] == rest;
      } else {
        assert [] + rest == rest;
      }
    }
  }

  /** What is fetched so far, and that it was returned as far as it parses. */
  ghost predicate Returned(content: Id -> Bytes, parses: Bytes -> bool, s: Round) {
    && (forall i | 0 <= i < |s.boxes| :: Unique(content, s.boxes[i]))
    && (forall id | id in s.ids :: parses(content(id)) ==> content(id) in s.envelopes)
    && (forall e | e in s.envelopes :: parses(e))
  }

  lemma ReturnedStep(content: Id -> Bytes, parses: Bytes -> bool, s: Round, e: Event)
    requires Returned(content, parses, s) && Enabled(s, e) && (e.Deposit? ==> e.m.envelope == content(e.m.id))
    ensures Returned(content, parses, Step(parses, s, e))
  {
    if e.Fetch? {
      ListingParts(content, parses, s.boxes[s.fetched], e.now);
    }
  }

  /** The mailbox dropped the message during the run. */
  ghost predicate DroppedIn(run: seq<Event>, i: nat, id: Id) {
    exists k :: 0 <= k < |run| && run[k].Drop? && run[k].i == i && id in run[k].dropped
  }

  lemma DroppedLater(run: seq<Event>, i: nat, id: Id)
    requires run != [] && DroppedIn(run[1..], i, id)
    ensures DroppedIn(run, i, id)
  {
    var k :| 0 <= k < |run[1..]| && run[1..][k].Drop? && run[1..][k].i == i && id in run[1..][k].dropped;
    assert run[k + 1] == run[1..][k];
  }

  lemma {:induction false} IdsGrow(parses: Bytes -> bool, s: Round, run: seq<Event>)
    requires ValidRun(parses, s, run)
    ensures s.ids <= After(parses, s, run).ids && |After(parses, s, run).boxes| == |s.boxes|
    decreases |run|
  {
    if run != [] {
      IdsGrow(parses, Step(parses, s, run[0]), run[1..]);
    }
  }

  /** A message that is in a box stays there, is dropped by its mailbox, or has a fetched identifier. */
  lemma {:induction false} NothingVanishes(parses: Bytes -> bool, s: Round, run: seq<Event>, i: nat, id: Id)
    requires ValidRun(parses, s, run) && i < |s.boxes| && id in s.boxes[i]
    ensures |After(parses, s, run).boxes| == |s.boxes|
    ensures id in After(parses, s, run).boxes[i] || DroppedIn(run, i, id) || id in After(parses, s, run).ids
    decreases |run|
  {
    IdsGrow(parses, s, run);
    if run != [] {
      var s' := Step(parses, s, run[0]);
      if id in s'.boxes[i] {
        NothingVanishes(parses, s', run[1..], i, id);
        if DroppedIn(run[1..], i, id) {
          DroppedLater(run, i, id);
        }
      } else if run[0].Ack? {
        assert id in s.ids;
      } else {
        assert run[0].Drop?;
      }
    }
  }

  lemma {:induction false} ReturnedAfter(content: Id -> Bytes, parses: Bytes -> bool, s: Round, run: seq<Event>)
    requires Returned(content, parses, s) && ValidRun(parses, s, run) && UniqueRun(content, s, run)
    ensures Returned(content, parses, After(parses, s, run))
    decreases |run|
  {
    if run != [] {
      ReturnedStep(content, parses, s, run[0]);
      var s' := Step(parses, s, run[0]);
      assert forall k | 0 <= k < |run[1..]| :: run[1..][k] == run[k + 1];
      ReturnedAfter(content, parses, s', run[1..]);
    }
  }

  function Begin(boxes: seq<Box>): Round {
    Round(boxes, 0, 0, [], [])
  }

  /** Retrieve-then-acknowledge loses nothing: with unique identifiers, a message that is in a box at any
      point of a round is at its end still there, or was dropped by the mailbox itself, or was fetched;
      and a fetched one is among the returned envelopes exactly when it parses. */
  lemma NothingLost(content: Id -> Bytes, parses: Bytes -> bool, boxes: seq<Box>, before: seq<Event>, after: seq<Event>,
                    i: nat, id: Id)
    requires ValidRun(parses, Begin(boxes), before) && UniqueRun(content, Begin(boxes), before)
    requires ValidRun(parses, After(parses, Begin(boxes), before), after)
    requires UniqueRun(content, After(parses, Begin(boxes), before), after)
    requires i < |After(parses, Begin(boxes), before).boxes| && id in After(parses, Begin(boxes), before).boxes[i]
    ensures var end := After(parses, After(parses, Begin(boxes), before), after);
            && i < |end.boxes|
            && (id in end.boxes[i] || DroppedIn(after, i, id) || id in end.ids)
            && (id in end.ids ==> (content(id) in end.envelopes <==> parses(content(id))))
  {
    ReturnedAfter(content, parses, Begin(boxes), before);
    var mid := After(parses, Begin(boxes), before);
    ReturnedAfter(content, parses, mid, after);
    NothingVanishes(parses, mid, after, i, id);
  }

  /** With one identifier for two envelopes, an acknowledgment deletes the one that nobody fetched. */
  lemma ReusedIdLoses(seen: Stored, unseen: Stored)
    requires seen.id == unseen.id == 7 && seen.envelope != unseen.envelope && seen.expiresAt >= 1
    ensures var s := Begin([map[7 := seen], map[7 := unseen]]);
            var run := [Fetch(0, true), Fetch(0, false), Ack(true), Ack(true)];
            && ValidRun((e: Bytes) => true, s, run)
            && After((e: Bytes) => true, s, run).boxes[1] == map[]
            && unseen.envelope !in After((e: Bytes) => true, s, run).envelopes
  {
    var parses := (e: Bytes) => true;
    var s := Begin([map[7 := seen], map[7 := unseen]]);
    var run := [Fetch(0, true), Fetch(0, false), Ack(true), Ack(true)];
    var box: Box := map[7 := seen];
    assert 7 in box.Keys;
    assert Least(box.Keys) == 7;
    assert box - {7} == map[];
    assert Listing(box - {7}, 0) == [];
    assert Listing(box, 0) == [seen];
    assert IdsOf([]) == [] && Parsed(parses, []) == [] && [seen][1..] == [];
    assert IdsOf([seen]) == [7] && Parsed(parses, [seen]) == [seen.envelope];
    assert s.boxes[0] == box;
    var s1 := Step(parses, s, run[0]);
    assert s1.ids == [] + [7] && s1.envelopes == [] + [seen.envelope];
    assert s1.ids == [7] && s1.envelopes == [seen.envelope] && s1.boxes == s.boxes;
    var s2 := Step(parses, s1, run[1]);
    assert 7 in IdSet(s2.ids);
    var s3 := Step(parses, s2, run[2]);
    var s4 := Step(parses, s3, run[3]);
    assert run[1..] == [run[1], run[2], run[3]] && run[1..][1..] == [run[2], run[3]];
    assert run[1..][1..][1..] == [run[3]] && run[1..][1..][1..][1..] == [];
    assert s4.boxes[1] == map[];
  }

  // ---------------------------------------------------------------- the manager's loops

  /** What the first `n` mailboxes answer to a fetch, without interference. */
  ghost function FetchedIds(stores: seq<Store>, t: Target, now: nat, answers: seq<bool>, n: nat): seq<Id>
    requires n <= |stores| == |answers|
  {
    if n == 0 then []
    else FetchedIds(stores, t, now, answers, n - 1)
         + if answers[n - 1] then IdsOf(Listing(BoxOf(stores[n - 1], t), now)) else []
  }

  ghost function FetchedEnvelopes(parses: Bytes -> bool, stores: seq<Store>, t: Target, now: nat, answers: seq<bool>,
                                  n: nat)
    : seq<Bytes>
    requires n <= |stores| == |answers|
  {
    if n == 0 then []
    else FetchedEnvelopes(parses, stores, t, now, answers, n - 1)
         + if answers[n - 1] then Parsed(parses, Listing(BoxOf(stores[n - 1], t), now)) else []
  }

  ghost function Views(mailboxes: seq<Storage>): (views: seq<Store>)
    reads mailboxes
    ensures |views| == |mailboxes| && forall i | 0 <= i < |views| :: views[i] == mailboxes[i].View()
  {
    if mailboxes == [] then [] else Views(mailboxes[..|mailboxes| - 1]) + [mailboxes[|mailboxes| - 1].View()]
  }

  /** `answers` and `arrives` say which fetches are answered and which acknowledgments are processed. */
  method RetrieveFromRemoteMailboxes(mailboxes: seq<Storage>, t: Target, now: nat, parses: Bytes -> bool,
                                     answers: seq<bool>, arrives: seq<bool>)
    returns (envelopes: seq<Bytes>)
    requires |answers| == |arrives| == |mailboxes|
    requires forall i, j | 0 <= i < j < |mailboxes| :: mailboxes[i] != mailboxes[j]
    modifies mailboxes
    ensures envelopes == FetchedEnvelopes(parses, old(Views(mailboxes)), t, now, answers, |mailboxes|)
    ensures var ids := FetchedIds(old(Views(mailboxes)), t, now, answers, |mailboxes|);
            forall i | 0 <= i < |mailboxes| ::
              mailboxes[i].View()
              == if arrives[i] && ids != [] then DeleteMessages(old(Views(mailboxes))[i], t, IdSet(ids))
                 else old(Views(mailboxes))[i]
  {
    ghost var stores := Views(mailboxes);
    envelopes := [];
    var ids: seq<Id> := [];
    for n := 0 to |mailboxes|
      invariant envelopes == FetchedEnvelopes(parses, stores, t, now, answers, n)
      invariant ids == FetchedIds(stores, t, now, answers, n)
      invariant forall i | 0 <= i < |mailboxes| :: mailboxes[i].View() == stores[i]
    {
      if answers[n] {
        var messages := mailboxes[n].ListMessages(t, now);
        var more, moreIds := ReadAnswer(parses, messages);
        envelopes := envelopes + more;
        ids := ids + moreIds;
      }
    }
    if ids != [] {
      for n := 0 to |mailboxes|
        invariant forall i | 0 <= i < |mailboxes| ::
                    mailboxes[i].View()
                    == if i < n && arrives[i] then DeleteMessages(stores[i], t, IdSet(ids)) else stores[i]
      {
        if arrives[n] {
          mailboxes[n].Delete(t, ids);
        }
      }
    }
  }

  /** The identifiers of an answer, and those of its envelopes that parse. */
  method ReadAnswer(parses: Bytes -> bool, messages: seq<Stored>) returns (envelopes: seq<Bytes>, ids: seq<Id>)
    ensures envelopes == Parsed(parses, messages) && ids == IdsOf(messages)
  {
    envelopes, ids := [], [];
    for n := 0 to |messages|
      invariant envelopes + Parsed(parses, messages[n..]) == Parsed(parses, messages)
      invariant ids + IdsOf(messages[n..]) == IdsOf(messages)
    {
      if parses(messages[n].envelope) {
        envelopes := envelopes + [messages[n].envelope];
      }
      ids := ids + [messages[n].id];
    }
    assert messages[|messages|..] == [];
  }

  // ---------------------------------------------------------------- the method is a run

  function Boxes(stores: seq<Store>, t: Target): seq<Box> {
    seq(|stores|, k requires 0 <= k < |stores| => BoxOf(stores[k], t))
  }

  function Fetches(now: nat, answers: seq<bool>): seq<Event> {
    if answers == [] then [] else [Fetch(now, answers[0])] + Fetches(now, answers[1..])
  }

  function Acks(arrives: seq<bool>): seq<Event> {
    if arrives == [] then [] else [Ack(arrives[0])] + Acks(arrives[1..])
  }

  /** The boxes after the first `n` acknowledgments. */
  ghost function Acked(boxes: seq<Box>, ids: seq<Id>, arrives: seq<bool>, n: nat): (acked: seq<Box>)
    requires n <= |boxes| == |arrives|
    ensures |acked| == |boxes|
  {
    if n == 0 then boxes
    else
      var before := Acked(boxes, ids, arrives, n - 1);
      if arrives[n - 1] then before[n - 1 := before[n - 1] - IdSet(ids)] else before
  }

  lemma {:induction false} AckedBox(boxes: seq<Box>, ids: seq<Id>, arrives: seq<bool>, n: nat, k: nat)
    requires n <= |boxes| == |arrives| && k < |boxes|
    ensures Acked(boxes, ids, arrives, n)[k] == if k < n && arrives[k] then boxes[k] - IdSet(ids) else boxes[k]
  {
    if n > 0 {
      AckedBox(boxes, ids, arrives, n - 1, k);
    }
  }

  ghost function FetchedUpTo(parses: Bytes -> bool, stores: seq<Store>, t: Target, now: nat, answers: seq<bool>,
                             n: nat): Round
    requires n <= |stores| == |answers|
  {
    Round(Boxes(stores, t), n, 0, FetchedEnvelopes(parses, stores, t, now, answers, n),
          FetchedIds(stores, t, now, answers, n))
  }

  lemma {:induction false} FetchesRun(parses: Bytes -> bool, stores: seq<Store>, t: Target, now: nat,
                                      answers: seq<bool>, n: nat)
    requires n <= |stores| == |answers|
    ensures ValidRun(parses, FetchedUpTo(parses, stores, t, now, answers, n), Fetches(now, answers[n..]))
    ensures After(parses, FetchedUpTo(parses, stores, t, now, answers, n), Fetches(now, answers[n..]))
            == FetchedUpTo(parses, stores, t, now, answers, |stores|)
    decreases |stores| - n
  {
    if n < |stores| {
      FetchesRun(parses, stores, t, now, answers, n + 1);
      var run := Fetches(now, answers[n..]);
      assert answers[n..][1..] == answers[n + 1..];
      assert run[1..] == Fetches(now, answers[n + 1..]);
      assert Boxes(stores, t)[n] == BoxOf(stores[n], t);
      assert Step(parses, FetchedUpTo(parses, stores, t, now, answers, n), run[0])
          == FetchedUpTo(parses, stores, t, now, answers, n + 1);
    }
  }

  lemma {:induction false} AcksRun(parses: Bytes -> bool, boxes: seq<Box>, envelopes: seq<Bytes>, ids: seq<Id>,
                                   arrives: seq<bool>, n: nat)
    requires n <= |boxes| == |arrives| && ids != []
    ensures var s := Round(Acked(boxes, ids, arrives, n), |boxes|, n, envelopes, ids);
            && ValidRun(parses, s, Acks(arrives[n..]))
            && After(parses, s, Acks(arrives[n..]))
               == Round(Acked(boxes, ids, arrives, |boxes|), |boxes|, |boxes|, envelopes, ids)
    decreases |boxes| - n
  {
    if n < |boxes| {
      AcksRun(parses, boxes, envelopes, ids, arrives, n + 1);
      var run := Acks(arrives[n..]);
      assert arrives[n..][1..] == arrives[n + 1..];
      assert run[1..] == Acks(arrives[n + 1..]);
      var s := Round(Acked(boxes, ids, arrives, n), |boxes|, n, envelopes, ids);
      AckedBox(boxes, ids, arrives, n, n);
      assert Step(parses, s, run[0]) == Round(Acked(boxes, ids, arrives, n + 1), |boxes|, n + 1, envelopes, ids);
    }
  }

  lemma {:induction false} AfterConcat(parses: Bytes -> bool, s: Round, run: seq<Event>, more: seq<Event>)
    requires ValidRun(parses, s, run) && ValidRun(parses, After(parses, s, run), more)
    ensures ValidRun(parses, s, run + more)
    ensures After(parses, s, run + more) == After(parses, After(parses, s, run), more)
    decreases |run|
  {
    if run == [] {
      assert run + more == more;
    } else {
      assert (run + more)[1..] == run[1..] + more;
      AfterConcat(parses, Step(parses, s, run[0]), run[1..], more);
    }
  }

  /** What `RetrieveFromRemoteMailboxes` returns and leaves is what the run of its fetches and
      acknowledgments yields. */
  lemma RoundIsRun(parses: Bytes -> bool, stores: seq<Store>, t: Target, now: nat, answers: seq<bool>,
                   arrives: seq<bool>)
    requires |stores| == |answers| == |arrives|
    ensures var ids := FetchedIds(stores, t, now, answers, |stores|);
            var run := Fetches(now, answers) + if ids == [] then [] else Acks(arrives);
            && ValidRun(parses, Begin(Boxes(stores, t)), run)
            && var end := After(parses, Begin(Boxes(stores, t)), run);
               && end.envelopes == FetchedEnvelopes(parses, stores, t, now, answers, |stores|) && end.ids == ids
               && |end.boxes| == |stores|
               && forall k | 0 <= k < |stores| ::
                    end.boxes[k] == BoxOf(if arrives[k] && ids != [] then DeleteMessages(stores[k], t, IdSet(ids))
                                          else stores[k], t)
  {
    var boxes := Boxes(stores, t);
    var ids := FetchedIds(stores, t, now, answers, |stores|);
    var envelopes := FetchedEnvelopes(parses, stores, t, now, answers, |stores|);
    FetchesRun(parses, stores, t, now, answers, 0);
    assert answers[0..] == answers && arrives[0..] == arrives;
    assert FetchedUpTo(parses, stores, t, now, answers, 0) == Begin(boxes);
    if ids == [] {
      AfterConcat(parses, Begin(boxes), Fetches(now, answers), []);
    } else {
      AcksRun(parses, boxes, envelopes, ids, arrives, 0);
      AfterConcat(parses, Begin(boxes), Fetches(now, answers), Acks(arrives));
      forall k | 0 <= k < |stores|
        ensures Acked(boxes, ids, arrives, |boxes|)[k]
                == BoxOf(if arrives[k] then DeleteMessages(stores[k], t, IdSet(ids)) else stores[k], t)
      {
        AckedBox(boxes, ids, arrives, |boxes|, k);
        DeletedBox(stores[k], t, IdSet(ids));
      }
    }
  }

  lemma DeletedBox(s: Store, t: Target, ids: set<Id>)
    ensures BoxOf(DeleteMessages(s, t, ids), t) == BoxOf(s, t) - ids
  {
  }

  // ---------------------------------------------------------------- when an acknowledgment loses a message

  /** Records are filed under their own identifiers. */
  ghost predicate Filed(boxes: seq<Box>) {
    forall i, k | 0 <= i < |boxes| && k in boxes[i] :: boxes[i][k].id == k
  }

  predicate NoDeposits(run: seq<Event>) {
    forall k | 0 <= k < |run| :: !run[k].Deposit?
  }

  /** The run loses the message `id` of box `i`: it parses, its mailbox does not drop it, it is gone at the
      end, and its envelope is not returned. */
  ghost predicate Loses(parses: Bytes -> bool, boxes: seq<Box>, run: seq<Event>, i: nat, id: Id) {
    && i < |boxes| && id in boxes[i] && parses(boxes[i][id].envelope)
    && ValidRun(parses, Begin(boxes), run) && NoDeposits(run) && !DroppedIn(run, i, id)
    && var end := After(parses, Begin(boxes), run);
       && i < |end.boxes| && id !in end.boxes[i]
       && boxes[i][id].envelope !in end.envelopes
  }

  /** Two boxes file different envelopes under one identifier, and the one in box `i` parses. */
  predicate Conflict(parses: Bytes -> bool, boxes: seq<Box>, i: nat, j: nat, id: Id) {
    && i < |boxes| && j < |boxes| && id in boxes[i] && id in boxes[j]
    && boxes[i][id].envelope != boxes[j][id].envelope && parses(boxes[i][id].envelope)
  }

  /** The identifier names one envelope everywhere, and if it was fetched the envelope was returned. */
  ghost predicate OneEnvelope(s: Round, id: Id, envelope: Bytes) {
    && Filed(s.boxes)
    && (forall j | 0 <= j < |s.boxes| && id in s.boxes[j] :: s.boxes[j][id].envelope == envelope)
    && (id in s.ids ==> envelope in s.envelopes)
  }

  lemma {:induction false} ListingReturns(parses: Bytes -> bool, box: Box, now: nat, id: Id, envelope: Bytes)
    requires (forall k | k in box :: box[k].id == k) && (id in box ==> box[id].envelope == envelope) && parses(envelope)
    ensures id in IdsOf(Listing(box, now)) ==> envelope in Parsed(parses, Listing(box, now))
    decreases |box|
  {
    if box != map[] {
      var k := Least(box.Keys);
      SmallerBox(box, k);
      ListingReturns(parses, box - {k}, now, id, envelope);
      var rest := Listing(box - {k}, now);
      if !Expired(box[k], now) {
        assert ([box[k]] + rest)[1..] == rest;
      } else {
        assert [] + rest == rest;
      }
    }
  }

  lemma {:induction false} OneEnvelopeKept(parses: Bytes -> bool, s: Round, run: seq<Event>, id: Id, envelope: Bytes)
    requires OneEnvelope(s, id, envelope) && parses(envelope) && ValidRun(parses, s, run) && NoDeposits(run)
    ensures OneEnvelope(After(parses, s, run), id, envelope)
    decreases |run|
  {
    if run != [] {
      var e := run[0];
      if e.Fetch? {
        ListingReturns(parses, s.boxes[s.fetched], e.now, id, envelope);
      }
      assert forall k | 0 <= k < |run[1..]| :: run[1..][k] == run[k + 1];
      assert OneEnvelope(Step(parses, s, e), id, envelope);
      OneEnvelopeKept(parses, Step(parses, s, e), run[1..], id, envelope);
    }
  }

  /** A run that loses a message shows a conflict. */
  lemma LossConflicts(parses: Bytes -> bool, boxes: seq<Box>, run: seq<Event>, i: nat, id: Id)
    requires Filed(boxes) && Loses(parses, boxes, run, i, id)
    ensures exists j :: Conflict(parses, boxes, i, j, id)
  {
    var envelope := boxes[i][id].envelope;
    NothingVanishes(parses, Begin(boxes), run, i, id);
    if forall j | 0 <= j < |boxes| && id in boxes[j] :: boxes[j][id].envelope == envelope {
      OneEnvelopeKept(parses, Begin(boxes), run, id, envelope);
      assert false;
    } else {
      var j :| 0 <= j < |boxes| && id in boxes[j] && boxes[j][id].envelope != envelope;
      assert Conflict(parses, boxes, i, j, id);
    }
  }

  /** Only mailbox `j` answers. */
  function OnlyAnswer(n: nat, j: nat): seq<bool> {
    seq(n, k => k == j)
  }

  lemma AppendOnly<T>(before: seq<T>, more: seq<T>, all: seq<T>, answers: bool)
    requires all == before + if answers then more else []
    ensures all == if !answers then before else if before == [] then more else before + more
  {
  }

  lemma {:induction false} OnlyFetchedIds(stores: seq<Store>, t: Target, now: nat, answers: seq<bool>, j: nat, n: nat)
    requires j < |stores| && n <= |stores| == |answers| && forall k | 0 <= k < |answers| :: answers[k] <==> k == j
    ensures FetchedIds(stores, t, now, answers, n) == if n > j then IdsOf(Listing(BoxOf(stores[j], t), now)) else []
  {
    if n > 0 {
      OnlyFetchedIds(stores, t, now, answers, j, n - 1);
      var before, ids := FetchedIds(stores, t, now, answers, n - 1), IdsOf(Listing(BoxOf(stores[n - 1], t), now));
      AppendOnly(before, ids, FetchedIds(stores, t, now, answers, n), answers[n - 1]);
    }
  }

  lemma {:induction false} OnlyFetchedEnvelopes(parses: Bytes -> bool, stores: seq<Store>, t: Target, now: nat,
                                                answers: seq<bool>, j: nat, n: nat)
    requires j < |stores| && n <= |stores| == |answers| && forall k | 0 <= k < |answers| :: answers[k] <==> k == j
    ensures FetchedEnvelopes(parses, stores, t, now, answers, n)
            == if n > j then Parsed(parses, Listing(BoxOf(stores[j], t), now)) else []
  {
    if n > 0 {
      OnlyFetchedEnvelopes(parses, stores, t, now, answers, j, n - 1);
      var before := FetchedEnvelopes(parses, stores, t, now, answers, n - 1);
      var envelopes := Parsed(parses, Listing(BoxOf(stores[n - 1], t), now));
      AppendOnly(before, envelopes, FetchedEnvelopes(parses, stores, t, now, answers, n), answers[n - 1]);
    }
  }

  /** At time 0 nothing has expired, so a box with one record lists it. */
  lemma ListingOne(parses: Bytes -> bool, m: Stored)
    ensures Listing(map[m.id := m], 0) == [m]
    ensures IdsOf([m]) == [m.id] && Parsed(parses, [m]) == if parses(m.envelope) then [m.envelope] else []
  {
    var box: Box := map[m.id := m];
    assert m.id in box.Keys && Least(box.Keys) == m.id;
    assert box - {m.id} == map[];
    assert [m][1..] == [] && Listing(box - {m.id}, 0) == [];
  }

  lemma OnlyFetched(parses: Bytes -> bool, stores: seq<Store>, t: Target, answers: seq<bool>, j: nat, m: Stored)
    requires j < |stores| && BoxOf(stores[j], t) == map[m.id := m] && answers == OnlyAnswer(|stores|, j)
    ensures FetchedIds(stores, t, 0, answers, |stores|) == [m.id]
    ensures FetchedEnvelopes(parses, stores, t, 0, answers, |stores|) == if parses(m.envelope) then [m.envelope] else []
  {
    ListingOne(parses, m);
    OnlyFetchedIds(stores, t, 0, answers, j, |stores|);
    OnlyFetchedEnvelopes(parses, stores, t, 0, answers, j, |stores|);
  }

  /** A round in which only mailbox `j` answers, with one message, and all acknowledgments arrive. */
  lemma OnlyRound(parses: Bytes -> bool, boxes: seq<Box>, j: nat, m: Stored) returns (run: seq<Event>)
    requires j < |boxes| && boxes[j] == map[m.id := m]
    ensures ValidRun(parses, Begin(boxes), run) && forall k | 0 <= k < |run| :: run[k].Fetch? || run[k].Ack?
    ensures var end := After(parses, Begin(boxes), run);
            && |end.boxes| == |boxes| && (forall k | 0 <= k < |boxes| :: m.id !in end.boxes[k])
            && end.envelopes == if parses(m.envelope) then [m.envelope] else []
  {
    var t: Target := [];
    var stores := StoresWith(boxes, t);
    var answers, arrives := OnlyAnswer(|boxes|, j), seq(|boxes|, k => true);
    assert BoxOf(stores[j], t) == Boxes(stores, t)[j];
    OnlyFetched(parses, stores, t, answers, j, m);
    RoundIsRun(parses, stores, t, 0, answers, arrives);
    RoundHasNoDrops(answers, arrives);
    run := Fetches(0, answers) + Acks(arrives);
    AllAcknowledged(boxes, stores, t, m.id, After(parses, Begin(boxes), run).boxes);
  }

  lemma StoresWith(boxes: seq<Box>, t: Target) returns (stores: seq<Store>)
    ensures |stores| == |boxes| && Boxes(stores, t) == boxes
  {
    stores := seq(|boxes|, k requires 0 <= k < |boxes| => Store(map[t := boxes[k]], map[]));
    assert Boxes(stores, t) == boxes;
  }

  lemma AllAcknowledged(boxes: seq<Box>, stores: seq<Store>, t: Target, id: Id, end: seq<Box>)
    requires |end| == |boxes| == |stores|
    requires forall k | 0 <= k < |stores| :: end[k] == BoxOf(DeleteMessages(stores[k], t, IdSet([id])), t)
    ensures forall k | 0 <= k < |end| :: id !in end[k]
  {
    forall k | 0 <= k < |end|
      ensures id !in end[k]
    {
      DeletedBox(stores[k], t, IdSet([id]));
    }
  }

  /** With a conflict, some run loses the message: mailbox `j` drops the rest of its box, only `j` answers,
      and all acknowledgments arrive. */
  lemma ConflictLoses(parses: Bytes -> bool, boxes: seq<Box>, i: nat, j: nat, id: Id) returns (run: seq<Event>)
    requires Filed(boxes) && Conflict(parses, boxes, i, j, id)
    ensures Loses(parses, boxes, run, i, id)
  {
    var m, drop := boxes[j][id], Drop(j, boxes[j].Keys - {id});
    var only: Box := boxes[j] - drop.dropped;
    assert only == map[m.id := m];
    var left := boxes[j := only];
    var round := OnlyRound(parses, left, j, m);
    assert Step(parses, Begin(boxes), drop) == Begin(left);
    run := [drop] + round;
    assert run[1..] == round;
    assert forall k | 0 < k < |run| :: run[k] == round[k - 1];
  }

  lemma {:induction false} FetchesOnly(now: nat, answers: seq<bool>)
    ensures forall k | 0 <= k < |Fetches(now, answers)| :: Fetches(now, answers)[k].Fetch?
  {
    if answers != [] {
      FetchesOnly(now, answers[1..]);
    }
  }

  lemma {:induction false} AcksOnly(arrives: seq<bool>)
    ensures forall k | 0 <= k < |Acks(arrives)| :: Acks(arrives)[k].Ack?
  {
    if arrives != [] {
      AcksOnly(arrives[1..]);
    }
  }

  lemma RoundHasNoDrops(answers: seq<bool>, arrives: seq<bool>)
    ensures var round := Fetches(0, answers) + Acks(arrives);
            forall k | 0 <= k < |round| :: round[k].Fetch? || round[k].Ack?
  {
    FetchesOnly(0, answers);
    AcksOnly(arrives);
  }

  /** From given boxes, some run without deposits loses a message that parses if and only if two boxes
      file different envelopes under one identifier, and one of them parses. */
  lemma LosesExactly(parses: Bytes -> bool, boxes: seq<Box>)
    requires Filed(boxes)
    ensures (exists run, i, id :: Loses(parses, boxes, run, i, id))
            <==> (exists i, j, id :: Conflict(parses, boxes, i, j, id))
  {
    if run, i, id :| Loses(parses, boxes, run, i, id) {
      LossConflicts(parses, boxes, run, i, id);
    }
    if i, j, id :| Conflict(parses, boxes, i, j, id) {
      var run := ConflictLoses(parses, boxes, i, j, id);
    }
  }
}
