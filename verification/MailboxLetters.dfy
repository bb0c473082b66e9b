/** What becomes of a stored message: it is listed as it was stored until it is deleted, overwritten or
    evicted, or its time is over, and a retrieval round brings it back. */
module MailboxLetters {
  import opened Wrappers
  import opened MailboxStorage
  import opened MailboxRuns
  import Rounds = MailboxRetrieval

  // ---------------------------------------------------------------- listings

  ghost predicate OwnKeys(box: Box) {
    forall k | k in box :: box[k].id == k
  }

  /** The record is in the box and its time is not over. */
  ghost predicate Current(box: Box, m: Stored, now: nat) {
    m.id in box && box[m.id] == m && now <= m.expiresAt * SECOND
  }

  ghost predicate Ascending(list: seq<Stored>) {
    forall i, j | 0 <= i < j < |list| :: list[i].id < list[j].id
  }

  /** A listing has the records whose time is not over, each once and in key order. */
  lemma {:induction false} ListingIs(box: Box, now: nat)
    requires OwnKeys(box)
    ensures forall m :: m in Listing(box, now) <==> Current(box, m, now)
    ensures Ascending(Listing(box, now))
    decreases |box|
  {
    if box != map[] {
      var k := Least(box.Keys);
      SmallerBox(box, k);
      ListingIs(box - {k}, now);
      ListingFirst(box, now);
      CurrentBut(box, k, now);
      OneMore(Listing(box, now), Listing(box - {k}, now), box[k], now <= box[k].expiresAt * SECOND);
    }
  }

  lemma OneMore(list: seq<Stored>, rest: seq<Stored>, first: Stored, kept: bool)
    requires list == if kept then [first] + rest else rest
    requires Ascending(rest) && forall m | m in rest :: first.id < m.id
    ensures Ascending(list) && forall m :: m in list <==> m in rest || (kept && m == first)
  {
  }

  lemma CurrentBut(box: Box, k: Id, now: nat)
    requires OwnKeys(box) && IsLeast(box.Keys, k)
    ensures forall m :: Current(box, m, now)
                        <==> Current(box - {k}, m, now) || (now <= box[k].expiresAt * SECOND && m == box[k])
    ensures forall m | Current(box - {k}, m, now) :: k < m.id
  {
  }

  // ---------------------------------------------------------------- what a store promises

  /** The last second in which a message that is stored now is kept, in nanoseconds. */
  function KeptUntil(now: nat, ttl: nat): nat {
    (now + ttl * SECOND) / SECOND * SECOND
  }

  /** The record says what was stored, by whom, and when. */
  predicate Says(m: Stored, x: Timed) {
    && x.op.Put? && m.id == x.op.id && m.sender == x.op.sender && m.envelope == x.op.envelope
    && m.size == |x.op.envelope| && m.storedAt == x.now / SECOND && m.expiresAt * SECOND == KeptUntil(x.now, x.op.ttl)
  }

  ghost predicate Lists(list: seq<Stored>, x: Timed) {
    exists i :: 0 <= i < |list| && Says(list[i], x)
  }

  ghost predicate Has(s: Store, t: Target, id: Id) {
    id in BoxOf(s, t)
  }

  /** The operation deletes, overwrites or evicts the record. */
  ghost predicate Displaces(c: Config, s: Store, x: Timed, t: Target, id: Id) {
    match x.op
    case Put(u, other, _, _, _) =>
      && u == t && PutResult(c, s, x).Success?
      && (other == id || (Evicts(c, s, t) && BoxOf(s, t) != map[] && Least(BoxOf(s, t).Keys) == id))
    case Delete(u, ids) => u == t && id in ids
    case List(_) => false
    case Cleanup => false
  }

  ghost predicate Undisturbed(c: Config, s: Store, run: seq<Timed>, t: Target, id: Id)
    decreases |run|
  {
    run != [] ==> !Displaces(c, s, run[0], t, id) && Undisturbed(c, Apply(c, s, run[0]), run[1..], t, id)
  }

  /** Cleanups read the clock before that time. */
  predicate CleanedBy(run: seq<Timed>, u: nat) {
    forall k | 0 <= k < |run| && run[k].op.Cleanup? :: run[k].now <= u
  }

  /** The record that says so is there, or its time was over before `u` and a cleanup took it. */
  ghost predicate Kept(s: Store, t: Target, x: Timed, u: nat) {
    && x.op.Put?
    && (Has(s, t, x.op.id) ==> Says(BoxOf(s, t)[x.op.id], x))
    && (u <= KeptUntil(x.now, x.op.ttl) ==> Has(s, t, x.op.id))
  }

  lemma KeptStep(c: Config, s: Store, t: Target, x: Timed, y: Timed, u: nat)
    requires Kept(s, t, x, u) && !Displaces(c, s, y, t, x.op.id) && (y.op.Cleanup? ==> y.now <= u)
    ensures Kept(Apply(c, s, y), t, x, u)
  {
  }

  lemma {:induction false} KeptAfter(c: Config, s: Store, t: Target, x: Timed, run: seq<Timed>, u: nat)
    requires Kept(s, t, x, u) && Undisturbed(c, s, run, t, x.op.id) && CleanedBy(run, u)
    ensures Kept(After(c, s, run), t, x, u)
    decreases |run|
  {
    if run != [] {
      assert run[0].op.Cleanup? ==> run[0].now <= u;
      KeptStep(c, s, t, x, run[0], u);
      KeptAfter(c, Apply(c, s, run[0]), t, x, run[1..], u);
    }
  }

  /** Operation `k` of the run stores the message, and nothing after it displaces the record. */
  ghost predicate FiledBy(c: Config, s: Store, run: seq<Timed>, k: nat, t: Target, id: Id) {
    && k < |run| && run[k].op.Put? && run[k].op.target == t && run[k].op.id == id
    && PutResult(c, After(c, s, run[..k]), run[k]).Success?
    && Undisturbed(c, After(c, s, run[..k + 1]), run[k + 1..], t, id)
  }

  /** A record was there and stayed, or an operation of the run filed it. */
  lemma {:induction false} Origin(c: Config, s: Store, run: seq<Timed>, t: Target, id: Id)
    returns (filed: bool, k: nat)
    requires Has(After(c, s, run), t, id)
    ensures !filed ==> Has(s, t, id) && Undisturbed(c, s, run, t, id)
    ensures filed ==> FiledBy(c, s, run, k, t, id)
    decreases |run|
  {
    if run == [] {
      filed, k := false, 0;
    } else {
      var s', rest := Apply(c, s, run[0]), run[1..];
      filed, k := Origin(c, s', rest, t, id);
      if filed {
        LaterSlices(c, s, run, k);
        k := k + 1;
      } else if !Has(s, t, id) || Displaces(c, s, run[0], t, id) {
        filed, k := true, 0;
        assert run[..0] == [] && run[..1] == [run[0]] && [run[0]][1..] == [];
        assert After(c, s, run[..1]) == After(c, s', []) == s';
      }
    }
  }

  lemma LaterSlices(c: Config, s: Store, run: seq<Timed>, k: nat)
    requires k < |run| - 1
    ensures After(c, s, run[..k + 1]) == After(c, Apply(c, s, run[0]), run[1..][..k])
    ensures After(c, s, run[..k + 2]) == After(c, Apply(c, s, run[0]), run[1..][..k + 1])
    ensures run[k + 2..] == run[1..][k + 1..]
  {
    assert run[..k + 1][1..] == run[1..][..k] && run[..k + 2][1..] == run[1..][..k + 1];
  }

  lemma {:induction false} AfterSplit(c: Config, s: Store, run: seq<Timed>, more: seq<Timed>)
    ensures After(c, s, run + more) == After(c, After(c, s, run), more)
    decreases |run|
  {
    if run == [] {
      assert run + more == more;
    } else {
      assert (run + more)[1..] == run[1..] + more;
      AfterSplit(c, Apply(c, s, run[0]), run[1..], more);
    }
  }

  lemma StoredSays(c: Config, s: Store, x: Timed, u: nat)
    requires x.op.Put? && PutResult(c, s, x).Success?
    ensures Kept(Apply(c, s, x), x.op.target, x, u) && Has(Apply(c, s, x), x.op.target, x.op.id)
  {
  }

  /** The state after a run in which operation `k` filed a record. */
  lemma FiledKept(c: Config, run: seq<Timed>, k: nat, t: Target, id: Id, u: nat)
    requires FiledBy(c, EMPTY, run, k, t, id) && CleanedBy(run, u)
    ensures Kept(After(c, EMPTY, run), t, run[k], u)
  {
    var s := After(c, EMPTY, run[..k]);
    assert run[..k + 1] == run[..k] + [run[k]] && [run[k]][1..] == [];
    AfterSplit(c, EMPTY, run[..k], [run[k]]);
    assert After(c, s, [run[k]]) == After(c, Apply(c, s, run[k]), []) == Apply(c, s, run[k]);
    StoredSays(c, s, run[k], u);
    KeptAfter(c, Apply(c, s, run[k]), t, run[k], run[k + 1..], u);
    assert run == run[..k + 1] + run[k + 1..];
    AfterSplit(c, EMPTY, run[..k + 1], run[k + 1..]);
  }

  ghost predicate ListsAs(list: seq<Stored>, id: Id, sender: Bytes, envelope: Bytes) {
    exists i :: 0 <= i < |list| && list[i].id == id && list[i].sender == sender && list[i].envelope == envelope
  }

  /** A store of the run gave the identifier this sender and envelope, nothing displaced the record since,
      and its time is not over at `u`. */
  ghost predicate StandsAs(c: Config, run: seq<Timed>, t: Target, id: Id, sender: Bytes, envelope: Bytes, u: nat) {
    exists k: nat :: && FiledBy(c, EMPTY, run, k, t, id)
                     && run[k].op.sender == sender && run[k].op.envelope == envelope
                     && u <= KeptUntil(run[k].now, run[k].op.ttl)
  }

  /** A message is listed under an identifier exactly if a store of the run gave it that identifier, sender
      and envelope, nothing deleted, overwrote or evicted it since, and its time is not over; and an
      identifier is listed once. */
  lemma ListedExactly(c: Config, run: seq<Timed>, t: Target, id: Id, sender: Bytes, envelope: Bytes, u: nat)
    requires CleanedBy(run, u)
    ensures ListsAs(Listing(BoxOf(After(c, EMPTY, run), t), u), id, sender, envelope)
            <==> StandsAs(c, run, t, id, sender, envelope, u)
    ensures Ascending(Listing(BoxOf(After(c, EMPTY, run), t), u))
  {
    var box := BoxOf(After(c, EMPTY, run), t);
    RecordsFiled(c, EMPTY, run);
    ListingIs(box, u);
    if ListsAs(Listing(box, u), id, sender, envelope) {
      ListedStands(c, run, t, id, sender, envelope, u);
    }
    if StandsAs(c, run, t, id, sender, envelope, u) {
      StandingListed(c, run, t, id, sender, envelope, u);
    }
  }

  lemma ListedStands(c: Config, run: seq<Timed>, t: Target, id: Id, sender: Bytes, envelope: Bytes, u: nat)
    requires CleanedBy(run, u) && OwnKeys(BoxOf(After(c, EMPTY, run), t))
    requires ListsAs(Listing(BoxOf(After(c, EMPTY, run), t), u), id, sender, envelope)
    ensures StandsAs(c, run, t, id, sender, envelope, u)
  {
    var box := BoxOf(After(c, EMPTY, run), t);
    var list := Listing(box, u);
    var i :| 0 <= i < |list| && list[i].id == id && list[i].sender == sender && list[i].envelope == envelope;
    ListingIs(box, u);
    assert list[i] in list;
    var filed, k := Origin(c, EMPTY, run, t, id);
    FiledKept(c, run, k, t, id, u);
    assert Says(box[id], run[k]);
  }

  lemma StandingListed(c: Config, run: seq<Timed>, t: Target, id: Id, sender: Bytes, envelope: Bytes, u: nat)
    requires CleanedBy(run, u) && OwnKeys(BoxOf(After(c, EMPTY, run), t))
    requires StandsAs(c, run, t, id, sender, envelope, u)
    ensures ListsAs(Listing(BoxOf(After(c, EMPTY, run), t), u), id, sender, envelope)
  {
    var k: nat :| && FiledBy(c, EMPTY, run, k, t, id) && run[k].op.sender == sender && run[k].op.envelope == envelope
                  && u <= KeptUntil(run[k].now, run[k].op.ttl);
    var box := BoxOf(After(c, EMPTY, run), t);
    FiledKept(c, run, k, t, id, u);
    CurrentListed(box, box[id], u);
  }

  lemma CurrentListed(box: Box, m: Stored, u: nat)
    requires OwnKeys(box) && Current(box, m, u)
    ensures exists i :: 0 <= i < |Listing(box, u)| && Listing(box, u)[i] == m
  {
    ListingIs(box, u);
    assert m in Listing(box, u);
  }

  /** Before `u`, a stored message is in the listing as it was stored, and after it no record has its
      identifier. */
  lemma StoredIsListed(c: Config, before: seq<Timed>, x: Timed, after: seq<Timed>, u: nat)
    requires x.op.Put? && PutResult(c, After(c, EMPTY, before), x).Success? && CleanedBy(after, u)
    requires Undisturbed(c, Apply(c, After(c, EMPTY, before), x), after, x.op.target, x.op.id)
    ensures var end := After(c, Apply(c, After(c, EMPTY, before), x), after);
            var list := Listing(BoxOf(end, x.op.target), u);
            && (u <= KeptUntil(x.now, x.op.ttl) ==> Lists(list, x))
            && (u > KeptUntil(x.now, x.op.ttl) ==> forall i | 0 <= i < |list| :: list[i].id != x.op.id)
            && Ascending(list)
  {
    var s, t := After(c, EMPTY, before), x.op.target;
    var end := After(c, Apply(c, s, x), after);
    StoredSays(c, s, x, u);
    KeptAfter(c, Apply(c, s, x), t, x, after, u);
    RecordsFiled(c, EMPTY, before);
    RecordsFiled(c, Apply(c, s, x), after);
    ListingIs(BoxOf(end, t), u);
    if u <= KeptUntil(x.now, x.op.ttl) {
      CurrentListed(BoxOf(end, t), BoxOf(end, t)[x.op.id], u);
    } else {
      var list := Listing(BoxOf(end, t), u);
      forall i | 0 <= i < |list|
        ensures list[i].id != x.op.id
      {
        assert list[i] in list;
      }
    }
  }

  /** A cleanup leaves no record whose time is over, and takes no other. */
  lemma CleanupReclaims(s: Store, now: nat, t: Target, id: Id)
    ensures Has(CleanupExpired(s, now), t, id)
            <==> Has(s, t, id) && now <= BoxOf(s, t)[id].expiresAt * SECOND
    ensures Has(CleanupExpired(s, now), t, id) ==> BoxOf(CleanupExpired(s, now), t)[id] == BoxOf(s, t)[id]
  {
  }

  // ---------------------------------------------------------------- what the metadata tells

  /** The stores for a target that succeed, in order. */
  ghost function StoresFor(c: Config, s: Store, run: seq<Timed>, t: Target): seq<Timed>
    decreases |run|
  {
    if run == [] then []
    else
      (if run[0].op.Put? && run[0].op.target == t && PutResult(c, s, run[0]).Success? then [run[0]] else [])
      + StoresFor(c, Apply(c, s, run[0]), run[1..], t)
  }

  function TotalBytes(stores: seq<Timed>): nat {
    if stores == [] then 0
    else (if stores[0].op.Put? then |stores[0].op.envelope| else 0) + TotalBytes(stores[1..])
  }

  lemma {:induction false} TotalsAfter(c: Config, s: Store, run: seq<Timed>, t: Target)
    ensures MetaOf(After(c, s, run), t).count == MetaOf(s, t).count + |StoresFor(c, s, run, t)|
    ensures MetaOf(After(c, s, run), t).bytes == MetaOf(s, t).bytes + TotalBytes(StoresFor(c, s, run, t))
    ensures t in After(c, s, run).metas <==> t in s.metas || StoresFor(c, s, run, t) != []
    decreases |run|
  {
    if run != [] {
      var x, s' := run[0], Apply(c, s, run[0]);
      TotalsAfter(c, s', run[1..], t);
      var rest := StoresFor(c, s', run[1..], t);
      if x.op.Put? && x.op.target == t && PutResult(c, s, x).Success? {
        assert StoresFor(c, s, run, t) == [x] + rest && ([x] + rest)[1..] == rest;
      } else {
        assert StoresFor(c, s, run, t) == [] + rest == rest;
      }
    }
  }

  /** The times of the metadata after some stores, from earlier metadata. */
  ghost predicate Tells(m: Meta, m': Meta, stores: seq<Timed>) {
    && (stores == [] ==> m' == m)
    && (stores != [] ==> m'.newest == stores[|stores| - 1].now / SECOND)
    && (stores != [] && m.oldest == 0 ==> m'.oldest == stores[0].now / SECOND)
    && (m.oldest != 0 ==> m'.oldest == m.oldest)
  }

  lemma {:induction false} TimesAfter(c: Config, s: Store, run: seq<Timed>, t: Target, start: nat)
    requires Clocked(start, run) && start >= SECOND && MetaOf(s, t).oldest <= start / SECOND
    ensures Tells(MetaOf(s, t), MetaOf(After(c, s, run), t), StoresFor(c, s, run, t))
    decreases |run|
  {
    if run != [] {
      var x, s' := run[0], Apply(c, s, run[0]);
      TimesAfter(c, s', run[1..], t, x.now);
      var rest := StoresFor(c, s', run[1..], t);
      if x.op.Put? && x.op.target == t && PutResult(c, s, x).Success? {
        assert StoresFor(c, s, run, t) == [x] + rest;
        assert rest != [] ==> ([x] + rest)[|rest|] == rest[|rest| - 1];
        assert MetaOf(s', t) == Counted(MetaOf(s, t), |x.op.envelope|, x.now);
      } else {
        assert StoresFor(c, s, run, t) == [] + rest == rest;
      }
    }
  }

  /** With a clock that does not go back, the metadata tells how many stores of a target succeeded, their
      bytes, and the seconds of the first and the last one, whatever became of the records. */
  lemma MetaTells(c: Config, run: seq<Timed>, t: Target)
    requires Clocked(SECOND, run)
    ensures var meta, stores := MetaOf(After(c, EMPTY, run), t), StoresFor(c, EMPTY, run, t);
            && meta.count == |stores| && meta.bytes == TotalBytes(stores)
            && (stores != [] ==> meta.oldest == stores[0].now / SECOND
                                 && meta.newest == stores[|stores| - 1].now / SECOND)
  {
    TotalsAfter(c, EMPTY, run, t);
    TimesAfter(c, EMPTY, run, t, SECOND);
  }

  /** What a store does is decided by the stores before it that succeeded, whatever was deleted since: the
      first one is neither refused nor evicts; a later one is refused exactly if they are as many as the
      limit, and otherwise evicts exactly if their bytes leave no room for the largest message. */
  lemma StoresDecide(c: Config, run: seq<Timed>, x: Timed)
    requires x.op.Put?
    ensures var s, stores := After(c, EMPTY, run), StoresFor(c, EMPTY, run, x.op.target);
            && (PutResult(c, s, x).Success? <==> stores == [] || |stores| < c.maxMessages)
            && (Evicts(c, s, x.op.target) <==> stores != [] && TotalBytes(stores) + c.maxMessageSize > c.maxTotalBytes)
  {
    TotalsAfter(c, EMPTY, run, x.op.target);
  }

  // ---------------------------------------------------------------- a retrieval round

  /** The event changes the record at mailbox `i`. */
  predicate Touches(e: Rounds.Event, i: nat, id: Id) {
    || (e.Deposit? && e.i == i && e.m.id == id)
    || (e.Drop? && e.i == i && id in e.dropped)
  }

  /** Mailbox `i` answers the fetch at time `u`, and nothing touches the record before. */
  ghost predicate AnswersAt(parses: Bytes -> bool, s: Rounds.Round, run: seq<Rounds.Event>, i: nat, id: Id, u: nat)
    requires Rounds.ValidRun(parses, s, run)
    decreases |run|
  {
    run != [] &&
    if run[0].Fetch? && s.fetched == i then run[0].answers && run[0].now == u
    else !Touches(run[0], i, id) && AnswersAt(parses, Rounds.Step(parses, s, run[0]), run[1..], i, id, u)
  }

  lemma {:induction false} EnvelopesGrow(parses: Bytes -> bool, s: Rounds.Round, run: seq<Rounds.Event>)
    requires Rounds.ValidRun(parses, s, run)
    ensures s.envelopes <= Rounds.After(parses, s, run).envelopes
    decreases |run|
  {
    if run != [] {
      EnvelopesGrow(parses, Rounds.Step(parses, s, run[0]), run[1..]);
    }
  }

  lemma {:induction false} ParsedHas(parses: Bytes -> bool, messages: seq<Stored>, m: Stored)
    requires m in messages && parses(m.envelope)
    ensures m.envelope in Rounds.Parsed(parses, messages)
  {
    if messages[0] != m {
      ParsedHas(parses, messages[1..], m);
    }
  }

  ghost predicate Holds(box: Box, m: Stored) {
    OwnKeys(box) && m.id in box && box[m.id] == m
  }

  /** The events before that answer leave the record where it is. */
  lemma StillHolds(parses: Bytes -> bool, s: Rounds.Round, e: Rounds.Event, i: nat, m: Stored)
    requires Rounds.Enabled(s, e) && i < |s.boxes| && Holds(s.boxes[i], m) && !Touches(e, i, m.id) && !e.Ack?
    ensures var s' := Rounds.Step(parses, s, e);
            |s'.boxes| == |s.boxes| && s'.acked == s.acked && Holds(s'.boxes[i], m)
  {
  }

  /** What a mailbox holds when it answers is among the returned envelopes, if its time is not over and it
      parses. */
  lemma {:induction false} HeldIsReturned(parses: Bytes -> bool, s: Rounds.Round, run: seq<Rounds.Event>, i: nat,
                                          m: Stored, u: nat)
    requires Rounds.ValidRun(parses, s, run) && i < |s.boxes| && s.fetched <= i && s.acked == 0
    requires AnswersAt(parses, s, run, i, m.id, u) && Holds(s.boxes[i], m)
    requires u <= m.expiresAt * SECOND && parses(m.envelope)
    ensures m.envelope in Rounds.After(parses, s, run).envelopes
    decreases |run|
  {
    var e, s' := run[0], Rounds.Step(parses, s, run[0]);
    if e.Fetch? && s.fetched == i {
      ListingIs(s.boxes[i], u);
      ParsedHas(parses, Listing(s.boxes[i], u), m);
      EnvelopesGrow(parses, s', run[1..]);
    } else {
      StillHolds(parses, s, e, i, m);
      HeldIsReturned(parses, s', run[1..], i, m, u);
    }
  }

  /** A stored message comes back: if its mailbox answers a round, however the round interleaves with
      deposits and drops of other messages, the round returns its envelope. */
  lemma StoredComesBack(c: Config, before: seq<Timed>, x: Timed, after: seq<Timed>, parses: Bytes -> bool,
                        boxes: seq<Box>, run: seq<Rounds.Event>, i: nat, u: nat)
    requires x.op.Put? && PutResult(c, After(c, EMPTY, before), x).Success? && CleanedBy(after, u)
    requires Undisturbed(c, Apply(c, After(c, EMPTY, before), x), after, x.op.target, x.op.id)
    requires u <= KeptUntil(x.now, x.op.ttl) && parses(x.op.envelope)
    requires i < |boxes| && boxes[i] == BoxOf(After(c, Apply(c, After(c, EMPTY, before), x), after), x.op.target)
    requires Rounds.ValidRun(parses, Rounds.Begin(boxes), run)
    requires AnswersAt(parses, Rounds.Begin(boxes), run, i, x.op.id, u)
    ensures x.op.envelope in Rounds.After(parses, Rounds.Begin(boxes), run).envelopes
  {
    var s := After(c, EMPTY, before);
    StoredSays(c, s, x, u);
    KeptAfter(c, Apply(c, s, x), x.op.target, x, after, u);
    RecordsFiled(c, EMPTY, before);
    RecordsFiled(c, Apply(c, s, x), after);
    HeldIsReturned(parses, Rounds.Begin(boxes), run, i, boxes[i][x.op.id], u);
  }
}
