/** Hand-overs that overlap can lose an event at the browser, and two reachable streams that do lose one. */
module RelayLosses {
  import opened Options
  import opened BusModel
  import opened Delivery
  import opened Numbering
  import opened Subscription
  import opened Relay
  import opened RelayRuns

  // --- overlapping hand-overs -------------------------------------------------

  predicate OnlyDelivers(steps: seq<Action>) { forall i | 0 <= i < |steps| :: steps[i].Deliver? }

  lemma {:induction false} HandOversConcat(n: Net, a: seq<Action>, m: Net, b: seq<Action>, who: SubscriberId)
    requires Leads(n, a, m)
    ensures HandOvers(n, a + b, who) == HandOvers(n, a, who) + HandOvers(m, b, who)
    decreases |a|
  {
    if a == [] {
      assert a + b == b;
      assert [] + HandOvers(m, b, who) == HandOvers(m, b, who);
    } else {
      assert (a + b)[1..] == a[1..] + b;
      HandOversConcat(Do(n, a[0]), a[1..], m, b, who);
      Regroup(HandedBy(n, a[0], who), HandOvers(Do(n, a[0]), a[1..], who), HandOvers(m, b, who));
    }
  }

  lemma {:induction false} OneHandOver(n: Net, i: nat)
    requires TasksFit(n) && i < |n.tasks| && n.tasks[i].remaining != []
    ensures Enabled(n, Deliver(i, true)) && TasksFit(Do(n, Deliver(i, true)))
    ensures var m := Do(n, Deliver(i, true));
            && |m.tasks| == |n.tasks| && (forall k | 0 <= k < |n.tasks| && k != i :: m.tasks[k] == n.tasks[k])
            && m.tasks[i] == n.tasks[i].(remaining := n.tasks[i].remaining[1..])
  {
    HandOverFits(n, i);
    var m := Do(n, Deliver(i, true));
    assert m.boxes.Keys == n.boxes.Keys;
  }

  /** One task can be carried on until it has reached the subscriber, while every other waits. */
  lemma {:induction false} DeliverThrough(n: Net, i: nat, who: SubscriberId) returns (steps: seq<Action>, m: Net)
    requires TasksFit(n) && i < |n.tasks| && who in n.tasks[i].remaining
    ensures Leads(n, steps, m) && OnlyDelivers(steps) && TasksFit(m)
    ensures HandOvers(n, steps, who) == [n.tasks[i].item]
    ensures |m.tasks| == |n.tasks| && forall k | 0 <= k < |n.tasks| && k != i :: m.tasks[k] == n.tasks[k]
    decreases |n.tasks[i].remaining|
  {
    var t, a := n.tasks[i], Deliver(i, true);
    var next := Do(n, a);
    OneHandOver(n, i);
    LeadsOne(n, a);
    if t.remaining[0] == who {
      steps, m := [a], next;
      assert [a][1..] == [] && [t.item] + [] == [t.item];
    } else {
      assert t.remaining == [t.remaining[0]] + t.remaining[1..];
      var rest;
      rest, m := DeliverThrough(next, i, who);
      steps := [a] + rest;
      assert steps[1..] == rest;
      assert [] + [t.item] == [t.item];
    }
  }

  /** The later item first, then the earlier one. */
  lemma {:induction false} DeliverBackwards(n: Net, i: nat, j: nat, who: SubscriberId)
    returns (steps: seq<Action>, m: Net)
    requires TasksFit(n) && i < |n.tasks| && j < |n.tasks| && i != j
    requires who in n.tasks[i].remaining && who in n.tasks[j].remaining
    ensures Leads(n, steps, m) && OnlyDelivers(steps)
    ensures HandOvers(n, steps, who) == [n.tasks[j].item] + [n.tasks[i].item]
  {
    var a, n1 := DeliverThrough(n, j, who);
    var b;
    b, m := DeliverThrough(n1, i, who);
    LeadsThen(n, a, n1, b, m);
    HandOversConcat(n, a, n1, b, who);
    steps := a + b;
  }

  /** A later end of the same visit, by way of `m`. */
  ghost predicate GoesOn(v: Visit, w: Visit, steps: seq<Action>, m: Net) {
    && IsVisit(w) && w.who == v.who && w.rid == v.rid
    && w.joined == v.joined && w.toReplay == v.toReplay && w.replayed == v.replayed
    && w.toCheck == v.toCheck && w.checked == v.checked
    && Leads(v.ended, steps, m)
    && exists rest :: w.toEnd == v.toEnd + steps + rest && Leads(m, rest, w.ended)
  }

  lemma {:induction false} ThreeLegs(n: Net, a: seq<Action>, n1: Net, b: seq<Action>, n2: Net, c: seq<Action>,
                                     who: SubscriberId)
    requires Leads(n, a, n1) && Leads(n1, b, n2)
    ensures HandOvers(n, a + b + c, who) == HandOvers(n, a, who) + HandOvers(n1, b, who) + HandOvers(n2, c, who)
  {
    LeadsThen(n, a, n1, b, n2);
    HandOversConcat(n, a, n1, b, who);
    HandOversConcat(n, a + b, n2, c, who);
  }

  lemma StepsGoOn(v: Visit, w: Visit, steps: seq<Action>, rest: seq<Action>)
    requires w.toReplay == v.toReplay && w.toCheck == v.toCheck && w.toEnd == v.toEnd + steps + rest
    ensures StepsOf(w) == StepsOf(v) + steps + rest
  {
  }

  lemma {:induction false} HandedThrough(v: Visit, w: Visit, steps: seq<Action>, m: Net) returns (more: seq<Item>)
    requires IsVisit(v) && GoesOn(v, w, steps, m)
    ensures HandOvers(w.joined, StepsOf(w), w.who)
         == HandOvers(v.joined, StepsOf(v), v.who) + HandOvers(v.ended, steps, v.who) + more
  {
    var rest :| w.toEnd == v.toEnd + steps + rest && Leads(m, rest, w.ended);
    VisitLeads(v);
    ThreeLegs(v.joined, StepsOf(v), v.ended, steps, m, rest, v.who);
    StepsGoOn(v, w, steps, rest);
    more := HandOvers(m, rest, v.who);
  }

  /** A fresh item in some publisher's hands was sent since the replay. */
  lemma {:induction false} InFlightIsLater(v: Visit, i: nat, e: Event)
    requires IsVisit(v) && Steady(v) && i < |v.ended.tasks| && v.who in v.ended.tasks[i].remaining
    requires v.ended.tasks[i].item == Published(e) && e.sequence > Replayed(v)
    ensures e in Later(v)
  {
    VisitIsSound(v);
    InFlightIffTask(v.ended.tasks, v.who, Published(e));
    OwedIsOldAndSent(v);
    OldIsNotFresh(v, e);
    CountConcat(Prior(v), Sent(v), Published(e));
    assert InOnePlace(v.ended, v.who, Published(e));
    CountIffIn(Sent(v), Published(e));
    EventsOfMembers(Sent(v));
  }

  predicate NothingDropped(w: Visit) { w.who in w.ended.boxes && w.ended.boxes[w.who].dropped == [] }

  lemma {:induction false} SentOnce(w: Visit, e: Event)
    requires Sound(w) && Steady(w) && e.sequence > Replayed(w) && Rises(Replayed(w), Later(w))
    ensures Count(Line(w.ended.boxes[w.who]), Published(e)) <= 1
  {
    LineIsOwed(w, e);
    EventsCount(Sent(w), e);
    RisingCountsOnce(Replayed(w), Later(w), e);
  }

  lemma {:induction false} LineStartsWithRead(box: Mailbox)
    ensures box.consumed <= Line(box)
  {
    Regroup(box.consumed, box.queued, box.scheduled);
  }

  /** Nothing dropped, and the numbers rising: each event of the stream was handed over at most once. */
  lemma {:induction false} HandedOnce(w: Visit, e: Event)
    requires IsVisit(w) && Steady(w) && e.sequence > Replayed(w) && Rises(Replayed(w), Later(w)) && NothingDropped(w)
    ensures Count(HandOvers(w.joined, StepsOf(w), w.who), Published(e)) <= 1
    ensures Read(w) <= HandOvers(w.joined, StepsOf(w), w.who)
  {
    VisitIsSound(w);
    HandedIsLine(w);
    LineStartsWithRead(w.ended.boxes[w.who]);
    SentOnce(w, e);
  }

  lemma {:induction false} Where(a: seq<Item>, x: Item, b: seq<Item>, p: nat)
    requires p < |a + [x] + b|
    ensures p < |a| ==> (a + [x] + b)[p] in a
    ensures p > |a| ==> (a + [x] + b)[p] in b
  {
    if p > |a| {
      assert (a + [x] + b)[p] == b[p - |a| - 1];
    }
  }

  lemma {:induction false} OnlyPlace(a: seq<Item>, x: Item, b: seq<Item>, p: nat)
    requires Count(a + [x] + b, x) <= 1 && p < |a + [x] + b| && (a + [x] + b)[p] == x
    ensures p == |a|
  {
    CountConcat(a + [x], b, x);
    CountAppend(a, x, x);
    CountIffIn(a, x);
    CountIffIn(b, x);
    Where(a, x, b, p);
  }

  lemma {:induction false} BackwardsIsOutOfOrder(replayed: nat, read: seq<Item>, before: seq<Item>, e2: Event,
                                                 e1: Event, more: seq<Item>)
    requires read <= before + [Published(e2)] + [Published(e1)] + more && Published(e1) in read
    requires Count(before + [Published(e2)] + [Published(e1)] + more, Published(e1)) <= 1
    requires replayed < e1.sequence < e2.sequence
    ensures !ArrivesInOrder(replayed, read)
  {
    var handed, p := before + [Published(e2)] + [Published(e1)] + more, |before|;
    var q :| 0 <= q < |read| && read[q] == Published(e1);
    assert handed[q] == read[q];
    OnlyPlace(before + [Published(e2)], Published(e1), more, q);
    assert q == p + 1;
    assert read[p] == handed[p] == Published(e2);
    assert IsFresh(replayed, read[q]);
  }

  /**
   Whenever two hand-overs to the subscriber overlap, of events it has not seen, the deliveries can go on so that,
   however the visit ends after that and even if nothing is dropped, the stream is not whole.
   */
  lemma {:induction false} OverlapCanLose(v: Visit, i: nat, j: nat, e1: Event, e2: Event)
    returns (steps: seq<Action>, m: Net)
    requires IsVisit(v) && Steady(v) && !IsFinished(v.checked.bus, v.rid)
    requires i < |v.ended.tasks| && v.ended.tasks[i].item == Published(e1) && v.who in v.ended.tasks[i].remaining
    requires j < |v.ended.tasks| && v.ended.tasks[j].item == Published(e2) && v.who in v.ended.tasks[j].remaining
    requires Replayed(v) < e1.sequence < e2.sequence
    ensures Leads(v.ended, steps, m) && OnlyDelivers(steps)
    ensures forall w | GoesOn(v, w, steps, m) && NothingDropped(w) :: !Whole(w)
  {
    VisitIsSound(v);
    steps, m := DeliverBackwards(v.ended, i, j, v.who);
    forall w | GoesOn(v, w, steps, m) && NothingDropped(w) ensures !Whole(w) {
      LostIfBackwards(v, w, steps, m, i, e1, e2);
    }
  }

  lemma {:induction false} OutboxGrowsOn(v: Visit, w: Visit, steps: seq<Action>, m: Net)
    requires IsVisit(v) && GoesOn(v, w, steps, m)
    ensures Outbox(v.ended, v.rid) <= Outbox(w.ended, v.rid)
  {
    var rest :| w.toEnd == v.toEnd + steps + rest && Leads(m, rest, w.ended);
    LeadsThen(v.ended, steps, m, rest, w.ended);
    RunExtends(v.ended, steps + rest, w.ended);
  }

  lemma {:induction false} SentGrows(v: Visit, w: Visit, e: Event)
    requires Sound(v) && w.rid == v.rid && w.replayed == v.replayed
    requires Outbox(v.ended, v.rid) <= Outbox(w.ended, v.rid) && e in Later(v)
    ensures e in Later(w)
  {
    EventsOfMembers(Sent(v));
    EventsOfMembers(Sent(w));
    var k :| 0 <= k < |Sent(v)| && Sent(v)[k] == Published(e);
    assert Sent(w)[k] == Sent(v)[k];
  }

  lemma {:induction false} StillLater(v: Visit, w: Visit, steps: seq<Action>, m: Net, e: Event)
    requires IsVisit(v) && GoesOn(v, w, steps, m) && e in Later(v)
    ensures e in Later(w)
  {
    VisitIsSound(v);
    OutboxGrowsOn(v, w, steps, m);
    SentGrows(v, w, e);
  }

  lemma {:induction false} LostIfBackwards(v: Visit, w: Visit, steps: seq<Action>, m: Net, i: nat, e1: Event,
                                           e2: Event)
    requires IsVisit(v) && Steady(v) && !IsFinished(v.checked.bus, v.rid)
    requires i < |v.ended.tasks| && v.ended.tasks[i].item == Published(e1) && v.who in v.ended.tasks[i].remaining
    requires Replayed(v) < e1.sequence < e2.sequence
    requires GoesOn(v, w, steps, m) && NothingDropped(w)
    requires HandOvers(v.ended, steps, v.who) == [Published(e2)] + [Published(e1)]
    ensures !Whole(w)
  {
    InFlightIsLater(v, i, e1);
    StillLater(v, w, steps, m, e1);
    SameStart(v, w, steps, m);
    var before := HandOvers(v.joined, StepsOf(v), v.who);
    var more := HandedThrough(v, w, steps, m);
    Unbracket(before, [Published(e2)], [Published(e1)], more);
    NotWholeIfBackwards(w, before, e2, e1, more);
  }

  lemma SameStart(v: Visit, w: Visit, steps: seq<Action>, m: Net)
    requires Steady(v) && GoesOn(v, w, steps, m)
    ensures IsVisit(w) && Steady(w) && Replayed(w) == Replayed(v)
  {
  }

  lemma Unbracket(a: seq<Item>, b: seq<Item>, c: seq<Item>, d: seq<Item>)
    ensures a + (b + c) + d == a + b + c + d
  {
  }

  lemma {:induction false} NotWholeIfBackwards(w: Visit, before: seq<Item>, e2: Event, e1: Event, more: seq<Item>)
    requires IsVisit(w) && Steady(w) && !IsFinished(w.checked.bus, w.rid) && NothingDropped(w)
    requires e1 in Later(w) && Replayed(w) < e1.sequence < e2.sequence
    requires HandOvers(w.joined, StepsOf(w), w.who) == before + [Published(e2)] + [Published(e1)] + more
    ensures !Whole(w)
  {
    WholeIff(w);
    if Rises(Replayed(w), Later(w)) && AllRead(Later(w), Read(w)) {
      HandedOnce(w, e1);
      BackwardsIsOutOfOrder(Replayed(w), Read(w), before, e2, e1, more);
    }
  }

  // --- two reachable losses ---------------------------------------------------

  lemma {:induction false} ReachedJoin(steps: seq<Action>, n: Net, rid: RunId) returns (v: Visit)
    requires Leads(Start(1), steps, n) && rid in n.bus.runs && 0 in n.boxes
    requires n.boxes[0] == Mailbox(rid, |Outbox(n, rid)|, None, [], [], [], [])
    ensures v == Visit(0, rid, n, [], n, [], n, [], n) && IsVisit(v) && Steady(v)
  {
    ReachableStatesKeepInv(1, steps, n);
    ReachableNumbersRise(1, steps, n);
    assert Fits(n, rid);
    v := Visit(0, rid, n, [], n, [], n, [], n);
  }

  /** One subscriber, and a run that has recorded `k` events so far. */
  ghost predicate Recording(n: Net, rid: RunId, t: real, k: nat) {
    && Subscribers(n.bus, rid) == [0] && rid in n.bus.runs && !n.bus.runs[rid].finished
    && n.bus.runs[rid].sequence == k && n.bus.runs[rid].started == t
  }

  lemma {:induction false} PublishedOnce(n: Net, rid: RunId, t: real, draft: Draft, k: nat) returns (m: Net)
    requires Constructible(draft) && Recording(n, rid, t, k)
    ensures Leads(n, [Publish(rid, t, t, draft)], m) && Recording(m, rid, t, k + 1) && m.boxes == n.boxes
    ensures m.tasks == n.tasks + [Task(Published(MakeEvent(rid, k + 1, t, t, draft)), [0])]
    ensures Outbox(m, rid) == Outbox(n, rid) + [Published(MakeEvent(rid, k + 1, t, t, draft))]
  {
    m := Do(n, Publish(rid, t, t, draft));
    LeadsOne(n, Publish(rid, t, t, draft));
  }

  /** The run is claimed, and its subscriber joins before anything is published. */
  lemma {:induction false} ClaimAndJoin(rid: RunId, t: real) returns (v: Visit, n: Net)
    ensures v == Visit(0, rid, n, [], n, [], n, [], n) && IsVisit(v) && Steady(v)
    ensures Leads(Start(1), [OpenRun(rid, t)] + [Subscribe(rid, 0)], n)
    ensures Recording(n, rid, t, 0) && n.tasks == [] && Outbox(n, rid) == [] && History(n.bus, rid) == []
    ensures 0 in n.boxes && n.boxes[0] == Mailbox(rid, 0, None, [], [], [], [])
  {
    var a, b := OpenRun(rid, t), Subscribe(rid, 0);
    var n0 := Do(Start(1), a);
    LeadsOne(Start(1), a);
    assert rid in n0.bus.runs && n0.bus.runs[rid] == NewRun(t);
    n := Do(n0, b);
    LeadsOne(n0, b);
    LeadsThen(Start(1), [a], n0, [b], n);
    v := ReachedJoin([a] + [b], n, rid);
  }

  lemma {:induction false} HandedOverBackwards(n: Net, rid: RunId, e1: Event, e2: Event) returns (m: Net)
    requires n.tasks == [Task(Published(e1), [0]), Task(Published(e2), [0])]
    requires 0 in n.boxes && n.boxes[0] == Mailbox(rid, 0, None, [], [], [], [])
    ensures Leads(n, [Deliver(1, true)] + [Deliver(0, true)], m) && m.outbox == n.outbox
    ensures 0 in m.boxes && m.boxes[0] == Mailbox(rid, 0, None, [Published(e2), Published(e1)], [], [], [])
  {
    var n1 := Do(n, Deliver(1, true));
    LeadsOne(n, Deliver(1, true));
    assert n1.tasks[0] == n.tasks[0];
    m := Do(n1, Deliver(0, true));
    LeadsOne(n1, Deliver(0, true));
    LeadsThen(n, [Deliver(1, true)], n1, [Deliver(0, true)], m);
  }

  /** One callback and one read move the oldest scheduled item to the reader. */
  lemma {:induction false} ReadOne(n: Net, rid: RunId, since: nat, first: Item, rest: seq<Item>, read: seq<Item>)
    returns (m: Net)
    requires 0 in n.boxes && n.boxes[0] == Mailbox(rid, since, None, [first] + rest, [], read, [])
    ensures Leads(n, [RunCallback(0)] + [Consume(0)], m) && m.outbox == n.outbox
    ensures 0 in m.boxes && m.boxes[0] == Mailbox(rid, since, None, rest, [], read + [first], [])
  {
    var n1 := Do(n, RunCallback(0));
    LeadsOne(n, RunCallback(0));
    assert ([first] + rest)[1..] == rest;
    assert n1.boxes[0] == Mailbox(rid, since, None, rest, [first], read, []);
    m := Do(n1, Consume(0));
    LeadsOne(n1, Consume(0));
    LeadsThen(n, [RunCallback(0)], n1, [Consume(0)], m);
    assert [first][1..] == [];
  }

  lemma {:induction false} BackwardsShowsOne(e1: Event, e2: Event)
    requires e1.sequence == 1 && e2.sequence == 2
    ensures Shown(0, [Published(e2), Published(e1)]) == [e2]
  {
    assert [Published(e2), Published(e1)][1..] == [Published(e1)];
    assert [Published(e1)][1..] == [];
    assert Shown(2, [Published(e1)]) == Shown(2, []) == [];
    assert [e2] + [] == [e2];
  }

  const BACKWARDS: seq<Action> := [Deliver(1, true)] + [Deliver(0, true)]
  const READ: seq<Action> := [RunCallback(0)] + [Consume(0)]

  /** Handed over backwards and read one by one. */
  lemma {:induction false} Overtaken(n: Net, rid: RunId, e1: Event, e2: Event) returns (m: Net)
    requires n.tasks == [Task(Published(e1), [0]), Task(Published(e2), [0])]
    requires 0 in n.boxes && n.boxes[0] == Mailbox(rid, 0, None, [], [], [], [])
    ensures Leads(n, BACKWARDS + READ + READ, m) && m.outbox == n.outbox
    ensures 0 in m.boxes && m.boxes[0] == Mailbox(rid, 0, None, [], [], [Published(e2), Published(e1)], [])
  {
    var n1 := HandedOverBackwards(n, rid, e1, e2);
    assert [Published(e2), Published(e1)] == [Published(e2)] + [Published(e1)];
    var n2 := ReadOne(n1, rid, 0, Published(e2), [Published(e1)], []);
    assert [Published(e1)] == [Published(e1)] + [] && [] + [Published(e2)] == [Published(e2)];
    m := ReadOne(n2, rid, 0, Published(e1), [], [Published(e2)]);
    assert [Published(e2)] + [Published(e1)] == [Published(e2), Published(e1)];
    LeadsThen(n, BACKWARDS, n1, READ, n2);
    LeadsThen(n, BACKWARDS + READ, n2, READ, m);
  }

  /** Published twice on a joined run. */
  lemma {:induction false} TwoOnTheirWay(n: Net, rid: RunId, t: real, first: Draft, second: Draft) returns (m: Net)
    requires Constructible(first) && Constructible(second) && Recording(n, rid, t, 0)
    requires n.tasks == [] && Outbox(n, rid) == []
    ensures Leads(n, [Publish(rid, t, t, first)] + [Publish(rid, t, t, second)], m) && m.boxes == n.boxes
    ensures m.tasks == [Task(Published(MakeEvent(rid, 1, t, t, first)), [0]),
                        Task(Published(MakeEvent(rid, 2, t, t, second)), [0])]
    ensures Outbox(m, rid) == [Published(MakeEvent(rid, 1, t, t, first)), Published(MakeEvent(rid, 2, t, t, second))]
  {
    var n1 := PublishedOnce(n, rid, t, first, 0);
    m := PublishedOnce(n1, rid, t, second, 1);
    LeadsThen(n, [Publish(rid, t, t, first)], n1, [Publish(rid, t, t, second)], m);
  }

  lemma {:induction false} OneEvent(e: Event)
    ensures EventsOf([Published(e)]) == [e]
  {
    assert [] + [Published(e)] == [Published(e)] && [] + [e] == [e];
    EventsOfAppend([], Published(e));
  }

  lemma {:induction false} TwoEvents(e1: Event, e2: Event)
    ensures EventsOf([Published(e1), Published(e2)]) == [e1, e2]
  {
    assert [Published(e1)] + [Published(e2)] == [Published(e1), Published(e2)];
    EventsOfConcat([Published(e1)], [Published(e2)]);
    OneEvent(e1);
    OneEvent(e2);
  }

  lemma {:induction false} OnlyTheSecond(v: Visit, e1: Event, e2: Event)
    requires v.rid in v.replayed.bus.runs && e1.sequence == 1 && e2.sequence == 2
    requires Outbox(v.replayed, v.rid) == [] && History(v.replayed.bus, v.rid) == []
    requires Outbox(v.ended, v.rid) == [Published(e1), Published(e2)]
    requires Read(v) == [Published(e2), Published(e1)] && !IsFinished(v.checked.bus, v.rid)
    ensures Earlier(v) == [] && Later(v) == [e1, e2] && Streamed(v) == [e2] && !Whole(v)
  {
    BackwardsShowsOne(e1, e2);
    TwoEvents(e1, e2);
    assert Sent(v) == Outbox(v.ended, v.rid);
    assert [] + [e2] == [e2] && |[e2]| != |[] + [e1, e2]|;
  }

  lemma {:induction false} SparesPublishing(rid: RunId, t: real, first: Draft, second: Draft)
    ensures Spares([Publish(rid, t, t, first)] + [Publish(rid, t, t, second)] + (BACKWARDS + READ + READ), 0, true)
  {
    SparesReading();
    SparesBoth([Publish(rid, t, t, first)] + [Publish(rid, t, t, second)], BACKWARDS + READ + READ, 0);
  }

  lemma SparesReading()
    ensures Spares(BACKWARDS + READ + READ, 0, true) && Spares([Deliver(2, true)] + READ, 0, true)
  {
  }

  /**
   Overtaken. Subscribing first does lose an event at the browser: claim the run, subscribe, replay, check, publish
   twice, and let the hand-overs overlap. Everything is read out, nothing is trimmed or dropped, and only the second
   event is shown.
   */
  lemma {:induction false} RelayCanLoseAnEvent(rid: RunId, t: real, first: Draft, second: Draft)
    returns (start: seq<Action>, v: Visit)
    requires Constructible(first) && Constructible(second)
    ensures Leads(Start(1), start, v.joined)
    ensures IsVisit(v) && Steady(v) && ReadOut(v) && !IsFinished(v.checked.bus, rid)
    ensures var e1, e2 := MakeEvent(rid, 1, t, t, first), MakeEvent(rid, 2, t, t, second);
            Earlier(v) == [] && Later(v) == [e1, e2] && Streamed(v) == [e2] && !Whole(v)
  {
    var e1, e2 := MakeEvent(rid, 1, t, t, first), MakeEvent(rid, 2, t, t, second);
    var u, n := ClaimAndJoin(rid, t);
    start := [OpenRun(rid, t)] + [Subscribe(rid, 0)];
    var n1 := TwoOnTheirWay(n, rid, t, first, second);
    var m := Overtaken(n1, rid, e1, e2);
    var published := [Publish(rid, t, t, first)] + [Publish(rid, t, t, second)];
    LeadsThen(n, published, n1, BACKWARDS + READ + READ, m);
    SparesPublishing(rid, t, first, second);
    v := GoOn(u, published + (BACKWARDS + READ + READ), m);
    OnlyTheSecond(v, e1, e2);
  }

  // --- a run inserted afresh --------------------------------------------------

  /** One event published, nobody listening yet; then a subscriber. */
  lemma {:induction false} PublishAndJoin(rid: RunId, t: real, draft: Draft) returns (v: Visit, n: Net)
    requires Constructible(draft)
    ensures v == Visit(0, rid, n, [], n, [], n, [], n) && IsVisit(v) && Steady(v)
    ensures Leads(Start(1), [Publish(rid, t, t, draft)] + [Subscribe(rid, 0)], n)
    ensures forall r | r != rid :: Subscribers(n.bus, r) == []
    ensures Recording(n, rid, t, 1) && n.bus.capacity == 1 && n.bus.order == [rid] && n.bus.runs.Keys == {rid}
    ensures n.tasks == [Task(Published(MakeEvent(rid, 1, t, t, draft)), [])]
    ensures Outbox(n, rid) == [Published(MakeEvent(rid, 1, t, t, draft))]
    ensures History(n.bus, rid) == [MakeEvent(rid, 1, t, t, draft)]
    ensures 0 in n.boxes && n.boxes[0] == Mailbox(rid, 1, None, [], [], [], [])
  {
    var a, b := Publish(rid, t, t, draft), Subscribe(rid, 0);
    var n0 := Do(Start(1), a);
    LeadsOne(Start(1), a);
    assert n0.bus.order == [rid] && rid in n0.bus.runs;
    n := Do(n0, b);
    LeadsOne(n0, b);
    LeadsThen(Start(1), [a], n0, [b], n);
    v := ReachedJoin([a] + [b], n, rid);
  }

  /** Another run takes the only place. */
  lemma {:induction false} PushedOut(n: Net, rid: RunId, other: RunId, t: real, draft: Draft) returns (m: Net)
    requires Constructible(draft) && other != rid && Subscribers(n.bus, rid) == [0] && Subscribers(n.bus, other) == []
    requires n.bus.capacity == 1 && n.bus.order == [rid] && n.bus.runs.Keys == {rid}
    ensures Leads(n, [Publish(other, t, t, draft)], m) && m.boxes == n.boxes
    ensures Outbox(m, rid) == Outbox(n, rid) && Birth(m, rid) == Birth(n, rid)
    ensures |m.tasks| == |n.tasks| + 1 && m.tasks[..|n.tasks|] == n.tasks
    ensures rid !in m.bus.runs && m.bus.capacity == 1 && m.bus.order == [other] && Subscribers(m.bus, rid) == [0]
  {
    var a := Publish(other, t, t, draft);
    m := Do(n, a);
    LeadsOne(n, a);
    assert Last([rid] + [other], 1) == [other];
  }

  /** The first run publishes again, and is numbered from one again. */
  lemma {:induction false} PublishedAgain(n: Net, rid: RunId, t: real, draft: Draft) returns (m: Net)
    requires Constructible(draft) && rid !in n.bus.runs && n.bus.capacity == 1 && Subscribers(n.bus, rid) == [0]
    ensures Leads(n, [Publish(rid, t, t, draft)], m) && m.boxes == n.boxes
    ensures Outbox(m, rid) == Outbox(n, rid) + [Published(MakeEvent(rid, 1, t, t, draft))]
    ensures m.tasks == n.tasks + [Task(Published(MakeEvent(rid, 1, t, t, draft)), [0])]
  {
    m := Do(n, Publish(rid, t, t, draft));
    LeadsOne(n, Publish(rid, t, t, draft));
  }

  lemma {:induction false} DeliveredLast(n: Net, rid: RunId, item: Item) returns (m: Net)
    requires |n.tasks| > 2 && n.tasks[2] == Task(item, [0])
    requires 0 in n.boxes && n.boxes[0] == Mailbox(rid, 1, None, [], [], [], [])
    ensures Leads(n, [Deliver(2, true)] + READ, m) && m.outbox == n.outbox
    ensures 0 in m.boxes && m.boxes[0] == Mailbox(rid, 1, None, [], [], [item], [])
  {
    var a := Deliver(2, true);
    var n1 := Do(n, a);
    LeadsOne(n, a);
    assert n1.boxes[0] == Mailbox(rid, 1, None, [item] + [], [], [], []);
    m := ReadOne(n1, rid, 1, item, [], []);
    LeadsThen(n, [a], n1, READ, m);
    assert [] + [item] == [item];
  }

  lemma {:induction false} SparesRenumbering(a: Action, b: Action)
    requires a.Publish? && b.Publish?
    ensures Spares([a] + [b] + ([Deliver(2, true)] + READ), 0, true)
  {
    SparesReading();
    SparesBoth([a] + [b], [Deliver(2, true)] + READ, 0);
  }

  /** Pushed out, published again, handed over and read. */
  lemma {:induction false} Renumbered(n: Net, rid: RunId, other: RunId, t: real, between: Draft, second: Draft)
    returns (steps: seq<Action>, m: Net)
    requires Constructible(between) && Constructible(second) && other != rid
    requires Subscribers(n.bus, rid) == [0] && Subscribers(n.bus, other) == []
    requires n.bus.capacity == 1 && n.bus.order == [rid] && n.bus.runs.Keys == {rid} && |n.tasks| == 1
    requires 0 in n.boxes && n.boxes[0] == Mailbox(rid, 1, None, [], [], [], [])
    ensures Leads(n, steps, m) && Spares(steps, 0, true)
    ensures Outbox(m, rid) == Outbox(n, rid) + [Published(MakeEvent(rid, 1, t, t, second))]
    ensures 0 in m.boxes
    ensures m.boxes[0] == Mailbox(rid, 1, None, [], [], [Published(MakeEvent(rid, 1, t, t, second))], [])
  {
    var item := Published(MakeEvent(rid, 1, t, t, second));
    var a, b, c := Publish(other, t, t, between), Publish(rid, t, t, second), [Deliver(2, true)] + READ;
    var n1 := PushedOut(n, rid, other, t, between);
    var n2 := PublishedAgain(n1, rid, t, second);
    assert n2.tasks[2] == Task(item, [0]);
    m := DeliveredLast(n2, rid, item);
    LeadsThen(n, [a], n1, [b], n2);
    LeadsThen(n, [a] + [b], n2, c, m);
    SparesRenumbering(a, b);
    steps := [a] + [b] + c;
  }

  /**
   Inserted afresh. Publish, subscribe, replay, check; another run takes the only place, and the first publishes
   again. Its event is numbered 1, as the one replayed was; it is handed over, read - and skipped.
   */
  lemma {:induction false} RestartIsSkipped(rid: RunId, other: RunId, t: real, first: Draft, between: Draft,
                                            second: Draft)
    returns (start: seq<Action>, v: Visit)
    requires other != rid && Constructible(first) && Constructible(between) && Constructible(second)
    ensures Leads(Start(1), start, v.joined)
    ensures IsVisit(v) && Steady(v) && ReadOut(v) && !IsFinished(v.checked.bus, rid)
    ensures ArrivesInOrder(Replayed(v), Read(v))
    ensures var e1, e2 := MakeEvent(rid, 1, t, t, first), MakeEvent(rid, 1, t, t, second);
            Later(v) == [e2] && Read(v) == [Published(e2)] && Streamed(v) == [e1] && !Whole(v)
  {
    var u, n := PublishAndJoin(rid, t, first);
    start := [Publish(rid, t, t, first)] + [Subscribe(rid, 0)];
    var e2 := MakeEvent(rid, 1, t, t, second);
    var steps, m := Renumbered(n, rid, other, t, between, second);
    v := GoOn(u, steps, m);
    SkippedAlone(v, MakeEvent(rid, 1, t, t, first), e2);
  }

  lemma {:induction false} SkippedAlone(v: Visit, e1: Event, e2: Event)
    requires IsVisit(v) && Steady(v) && e1.sequence == e2.sequence == 1
    requires History(v.replayed.bus, v.rid) == [e1] && Read(v) == [Published(e2)] && !IsFinished(v.checked.bus, v.rid)
    requires Outbox(v.ended, v.rid) == Outbox(v.replayed, v.rid) + [Published(e2)]
    ensures Later(v) == [e2] && Streamed(v) == [e1] && !Whole(v) && ArrivesInOrder(Replayed(v), Read(v))
  {
    assert Sent(v) == [Published(e2)];
    OneEvent(e2);
    assert [Published(e2)][1..] == [] && Shown(1, [Published(e2)]) == Shown(1, []);
    assert [e1] + [] == [e1];
    assert e2 in [e2];
    NumberedAgain(v, e2);
  }
}
