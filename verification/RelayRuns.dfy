/** When the live stream is whole, judged by the schedule alone; and the ways it is not. */
module RelayRuns {
  import opened Options
  import opened StringOrder
  import opened BusModel
  import opened Delivery
  import opened Numbering
  import opened Subscription
  import opened Relay

  // --- hand-overs, read off the schedule --------------------------------------

  function HandedBy(n: Net, a: Action, who: SubscriberId): seq<Item> {
    if a.Deliver? && a.task < |n.tasks| && n.tasks[a.task].remaining != [] && n.tasks[a.task].remaining[0] == who
    then [n.tasks[a.task].item] else []
  }

  /** What the publishers hand to the subscriber, in the order they do. */
  function HandOvers(n: Net, steps: seq<Action>, who: SubscriberId): seq<Item>
    decreases |steps|
  {
    if steps == [] || !Enabled(n, steps[0]) then []
    else HandedBy(n, steps[0], who) + HandOvers(Do(n, steps[0]), steps[1..], who)
  }

  /** A mailbox from its oldest item to its newest. */
  function Line(box: Mailbox): seq<Item> { box.consumed + box.queued + box.scheduled }

  lemma {:induction false} StepMovesLine(n: Net, a: Action, who: SubscriberId)
    requires Enabled(n, a) && who in n.boxes && Do(n, a).boxes[who].dropped == []
    ensures n.boxes[who].dropped == []
    ensures Line(Do(n, a).boxes[who]) == Line(n.boxes[who]) + HandedBy(n, a, who)
  {
    var box, after := n.boxes[who], Do(n, a).boxes[who];
    match a
    case Deliver(i, reachable) =>
      if n.tasks[i].remaining[0] == who {
        var item := n.tasks[i].item;
        assert box.consumed + box.queued + (box.scheduled + [item]) == Line(box) + [item];
      }
    case RunCallback(w) =>
      if w == who {
        var item, rest := box.scheduled[0], box.scheduled[1..];
        assert box.scheduled == [item] + rest;
        assert box.consumed + (box.queued + [item]) + rest == box.consumed + box.queued + ([item] + rest);
      }
    case Consume(w) =>
      if w == who {
        var item, rest := box.queued[0], box.queued[1..];
        assert box.queued == [item] + rest;
        assert box.consumed + [item] + rest + box.scheduled == box.consumed + ([item] + rest) + box.scheduled;
      }
    case _ =>
  }

  /** As long as nothing is dropped, the mailbox holds what was handed over, in that order. */
  lemma {:induction false} LineIsHandOvers(n: Net, steps: seq<Action>, m: Net, who: SubscriberId)
    requires Leads(n, steps, m) && who in n.boxes && who in m.boxes && m.boxes[who].dropped == []
    ensures n.boxes[who].dropped == []
    ensures Line(m.boxes[who]) == Line(n.boxes[who]) + HandOvers(n, steps, who)
    decreases |steps|
  {
    if steps != [] {
      var next := Do(n, steps[0]);
      StepExtends(n, steps[0]);
      LineIsHandOvers(next, steps[1..], m, who);
      StepMovesLine(n, steps[0], who);
    }
  }

  function StepsOf(v: Visit): seq<Action> { v.toReplay + v.toCheck + v.toEnd }

  lemma {:induction false} VisitLeads(v: Visit)
    requires IsVisit(v)
    ensures Leads(v.joined, StepsOf(v), v.ended)
  {
    LeadsThen(v.joined, v.toReplay, v.replayed, v.toCheck, v.checked);
    LeadsThen(v.joined, v.toReplay + v.toCheck, v.checked, v.toEnd, v.ended);
  }

  /**
   Nothing was dropped, and the loop has come to the sentinel, where it stops, or to the end of what was handed over.
   What arrives behind the first sentinel need not have been read.
   */
  predicate ReadOut(v: Visit) {
    && v.who in v.ended.boxes && v.ended.boxes[v.who].dropped == []
    && (Sentinel in Read(v) || (v.ended.boxes[v.who].queued == [] && v.ended.boxes[v.who].scheduled == []))
  }

  /** Nothing behind a sentinel is shown. */
  lemma {:induction false} ShownUpToSentinel(seen: nat, items: seq<Item>, more: seq<Item>)
    requires Sentinel in items
    ensures Shown(seen, items + more) == Shown(seen, items)
    decreases |items|
  {
    if items[0] != Sentinel {
      var e := items[0].event;
      assert items == [items[0]] + items[1..];
      assert (items + more)[1..] == items[1..] + more;
      ShownUpToSentinel(if e.sequence <= seen then seen else e.sequence, items[1..], more);
    }
  }

  lemma {:induction false} HandedIsLine(v: Visit)
    requires IsVisit(v) && v.who in v.ended.boxes && v.ended.boxes[v.who].dropped == []
    ensures HandOvers(v.joined, StepsOf(v), v.who) == Line(v.ended.boxes[v.who])
  {
    VisitLeads(v);
    LineIsHandOvers(v.joined, StepsOf(v), v.ended, v.who);
    var handed := HandOvers(v.joined, StepsOf(v), v.who);
    assert Line(v.joined.boxes[v.who]) == [] && [] + handed == handed;
  }

  /** Read out, the loop shows what it would show of everything handed over. */
  lemma {:induction false} ReadShowsHanded(v: Visit, seen: nat)
    requires IsVisit(v) && ReadOut(v)
    ensures Shown(seen, Read(v)) == Shown(seen, HandOvers(v.joined, StepsOf(v), v.who))
  {
    var box := v.ended.boxes[v.who];
    HandedIsLine(v);
    Regroup(box.consumed, box.queued, box.scheduled);
    if Sentinel in Read(v) {
      ShownUpToSentinel(seen, box.consumed, box.queued + box.scheduled);
    } else {
      assert box.consumed + [] + [] == box.consumed;
    }
  }

  /** Nothing dropped: no fresh event is handed over more often than it was sent. */
  lemma {:induction false} HandedIsWithinSent(v: Visit)
    requires IsVisit(v) && Steady(v) && ReadOut(v)
    ensures ReadWithin(Replayed(v), HandOvers(v.joined, StepsOf(v), v.who), Sent(v))
  {
    VisitIsSound(v);
    HandedIsLine(v);
    OwedIsOldAndSent(v);
    forall e: Event | e.sequence > Replayed(v)
      ensures Count(Line(v.ended.boxes[v.who]), Published(e)) <= Count(Sent(v), Published(e))
    {
      LineIsOwed(v, e);
    }
  }

  lemma {:induction false} LineIsOwed(v: Visit, e: Event)
    requires Sound(v) && Steady(v) && e.sequence > Replayed(v)
    ensures Count(Line(v.ended.boxes[v.who]), Published(e)) <= Count(Sent(v), Published(e))
  {
    var x, box := Published(e), v.ended.boxes[v.who];
    CountConcat(box.consumed + box.queued, box.scheduled, x);
    CountConcat(box.consumed, box.queued, x);
    OwedIsOldAndSent(v);
    OldIsNotFresh(v, e);
    CountConcat(Prior(v), Sent(v), x);
    assert InOnePlace(v.ended, v.who, x);
  }

  /**
   Of a visit that was read out, everything is decided by the schedule: the buffer had lost nothing before the
   replay; and either the run was finished at the check with nothing published since the replay, or the numbering
   went on and every event sent since was handed over, in the order of the numbers and before any sentinel.
   */
  lemma {:induction false} WholeIffHandedInOrder(v: Visit)
    requires IsVisit(v) && Steady(v) && ReadOut(v)
    ensures var handed := HandOvers(v.joined, StepsOf(v), v.who);
            Whole(v) <==>
              && |Earlier(v)| <= EVENTS_PER_RUN
              && if IsFinished(v.checked.bus, v.rid) then Later(v) == []
                 else Rises(Replayed(v), Later(v)) && AllRead(Later(v), handed) && ArrivesInOrder(Replayed(v), handed)
  {
    var handed := HandOvers(v.joined, StepsOf(v), v.who);
    WholeIffLooped(v);
    ReadShowsHanded(v, Replayed(v));
    HandedIsWithinSent(v);
    LoopIsWholeIff(Replayed(v), handed, Sent(v));
  }

  // --- one hand-over at a time ------------------------------------------------

  /** The items some publisher still has to hand to the subscriber. */
  function Owing(tasks: seq<Task>, who: SubscriberId): seq<Item> {
    if tasks == [] then []
    else Owing(tasks[..|tasks| - 1], who) + OwedBy(tasks[|tasks| - 1], who)
  }

  function OwedBy(t: Task, who: SubscriberId): seq<Item> { if who in t.remaining then [t.item] else [] }

  lemma {:induction false} OwingAppend(tasks: seq<Task>, t: Task, who: SubscriberId)
    ensures Owing(tasks + [t], who) == Owing(tasks, who) + OwedBy(t, who)
  {
    assert (tasks + [t])[..|tasks|] == tasks;
  }

  lemma {:induction false} OwingConcat(a: seq<Task>, b: seq<Task>, who: SubscriberId)
    ensures Owing(a + b, who) == Owing(a, who) + Owing(b, who)
    decreases |b|
  {
    if b == [] {
      assert a + b == a;
    } else {
      var n := |b| - 1;
      assert (a + b)[..|a + b| - 1] == a + b[..n];
      OwingConcat(a, b[..n], who);
    }
  }

  lemma {:induction false} OwingOne(t: Task, who: SubscriberId)
    ensures Owing([t], who) == OwedBy(t, who)
  {
    assert [t][..0] == [] && [] + OwedBy(t, who) == OwedBy(t, who);
  }

  lemma {:induction false} OwingAround(tasks: seq<Task>, i: nat, who: SubscriberId)
    requires i < |tasks|
    ensures Owing(tasks, who) == Owing(tasks[..i], who) + OwedBy(tasks[i], who) + Owing(tasks[i + 1..], who)
  {
    assert tasks == tasks[..i] + [tasks[i]] + tasks[i + 1..];
    OwingConcat(tasks[..i] + [tasks[i]], tasks[i + 1..], who);
    OwingConcat(tasks[..i], [tasks[i]], who);
    OwingOne(tasks[i], who);
  }

  lemma {:induction false} OwingUpdate(tasks: seq<Task>, i: nat, t: Task, who: SubscriberId)
    requires i < |tasks|
    ensures Owing(tasks, who) == Owing(tasks[..i], who) + OwedBy(tasks[i], who) + Owing(tasks[i + 1..], who)
    ensures Owing(tasks[i := t], who) == Owing(tasks[..i], who) + OwedBy(t, who) + Owing(tasks[i + 1..], who)
  {
    OwingAround(tasks, i, who);
    OwingAround(tasks[i := t], i, who);
    assert tasks[i := t][..i] == tasks[..i] && tasks[i := t][i + 1..] == tasks[i + 1..];
  }

  /** Each publish or close of the run starts only when the one before has been handed over to the subscriber. */
  predicate Serial(n: Net, steps: seq<Action>, who: SubscriberId, rid: RunId)
    decreases |steps|
  {
    steps == [] ||
    (&& Enabled(n, steps[0])
     && (Sends(steps[0], rid) ==> Owing(n.tasks, who) == [])
     && Serial(Do(n, steps[0]), steps[1..], who, rid))
  }

  predicate Sends(a: Action, rid: RunId) { (a.Publish? && a.rid == rid) || (a.CloseRun? && a.rid == rid) }

  /** Handed over so far, and what is on its way: exactly what was sent since the subscription. */
  ghost predicate InStep(n: Net, who: SubscriberId, rid: RunId, since: nat, handed: seq<Item>) {
    && since <= |Outbox(n, rid)| && |Owing(n.tasks, who)| <= 1
    && handed + Owing(n.tasks, who) == Outbox(n, rid)[since..]
  }

  lemma {:induction false} SendInStep(n: Net, who: SubscriberId, rid: RunId, item: Item, r: RunId, since: nat,
                                      handed: seq<Item>)
    requires InStep(n, who, rid, since, handed) && (r == rid ==> Owing(n.tasks, who) == [])
    requires who in Subscribers(n.bus, r) <==> r == rid
    ensures InStep(Send(n, r, item), who, rid, since, handed)
  {
    var t := Task(item, Subscribers(n.bus, r));
    OwingAppend(n.tasks, t, who);
    if r == rid {
      assert (Outbox(n, rid) + [item])[since..] == Outbox(n, rid)[since..] + [item];
      assert [] + [item] == [item] && handed + [] == handed;
    } else {
      assert Owing(n.tasks, who) + [] == Owing(n.tasks, who);
    }
  }

  lemma {:induction false} OneLessOwing(tasks: seq<Task>, i: nat, who: SubscriberId)
    requires i < |tasks| && tasks[i].remaining != [] && Distinct(tasks[i].remaining) && |Owing(tasks, who)| <= 1
    ensures var t := tasks[i];
            var after := tasks[i := t.(remaining := t.remaining[1..])];
            if t.remaining[0] == who then Owing(tasks, who) == [t.item] && Owing(after, who) == []
            else Owing(after, who) == Owing(tasks, who)
  {
    var t := tasks[i];
    var rest := t.(remaining := t.remaining[1..]);
    OwingUpdate(tasks, i, rest, who);
    OwedAfter(t, who);
    if t.remaining[0] == who {
      OnlyThat(Owing(tasks[..i], who), t.item, Owing(tasks[i + 1..], who));
    }
  }

  lemma {:induction false} OwedAfter(t: Task, who: SubscriberId)
    requires t.remaining != [] && Distinct(t.remaining)
    ensures var rest := t.(remaining := t.remaining[1..]);
            if t.remaining[0] == who then OwedBy(t, who) == [t.item] && OwedBy(rest, who) == []
            else OwedBy(rest, who) == OwedBy(t, who)
  {
    assert t.remaining == [t.remaining[0]] + t.remaining[1..];
    assert t.remaining[0] !in t.remaining[1..];
  }

  lemma OnlyThat(a: seq<Item>, x: Item, b: seq<Item>)
    requires |a + [x] + b| <= 1
    ensures a == [] && b == [] && a + [x] + b == [x] && a + [] + b == []
  {
  }

  lemma {:induction false} DeliverInStep(n: Net, i: nat, reachable: bool, who: SubscriberId, rid: RunId, since: nat,
                                         handed: seq<Item>)
    requires Enabled(n, Deliver(i, reachable)) && TasksFit(n) && InStep(n, who, rid, since, handed)
    ensures InStep(Do(n, Deliver(i, reachable)), who, rid, since, handed + HandedBy(n, Deliver(i, reachable), who))
  {
    var t, m := n.tasks[i], Do(n, Deliver(i, reachable));
    OneLessOwing(n.tasks, i, who);
    assert m.tasks == n.tasks[i := t.(remaining := t.remaining[1..])] && Outbox(m, rid) == Outbox(n, rid);
    assert handed + [t.item] + [] == handed + [t.item] && handed + [] == handed;
  }

  /** What a publish or a close does to the tasks and the outbox, apart from the bus. */
  lemma {:induction false} PublishInStep(n: Net, r: RunId, created: real, now: real, draft: Draft, who: SubscriberId,
                                         rid: RunId, since: nat, handed: seq<Item>)
    requires InStep(n, who, rid, since, handed) && (r == rid ==> Owing(n.tasks, who) == [])
    requires who in Subscribers(n.bus, r) <==> r == rid
    ensures InStep(Do(n, Publish(r, created, now, draft)), who, rid, since, handed)
  {
    var m := Recorded(n, r, created, now, draft);
    assert Subscribers(m.bus, r) == Subscribers(n.bus, r) && Outbox(m, rid) == Outbox(n, rid);
    if Constructible(draft) {
      SendInStep(m, who, rid, Published(NextEvent(n, r, created, now, draft)), r, since, handed);
    }
  }

  lemma {:induction false} CloseInStep(n: Net, r: RunId, who: SubscriberId, rid: RunId, since: nat, handed: seq<Item>)
    requires InStep(n, who, rid, since, handed) && (r == rid ==> Owing(n.tasks, who) == [])
    requires who in Subscribers(n.bus, r) <==> r == rid
    ensures InStep(Do(n, CloseRun(r)), who, rid, since, handed)
  {
    var m := n.(bus := Close(n.bus, r));
    assert Subscribers(m.bus, r) == Subscribers(n.bus, r) && Outbox(m, rid) == Outbox(n, rid);
    SendInStep(m, who, rid, Sentinel, r, since, handed);
  }

  /** The subscription stands. */
  predicate Open(n: Net, who: SubscriberId, rid: RunId) {
    who in n.boxes && n.boxes[who].rid == rid && n.boxes[who].until.None?
  }

  lemma {:induction false} StaysOpenOnce(n: Net, a: Action, who: SubscriberId, rid: RunId)
    requires Enabled(n, a) && Open(n, who, rid) && a != Unsubscribe(who)
    ensures Open(Do(n, a), who, rid)
  {
    StepExtends(n, a);
  }

  lemma {:induction false} OtherInStep(n: Net, a: Action, who: SubscriberId, rid: RunId, since: nat,
                                       handed: seq<Item>)
    requires Enabled(n, a) && InStep(n, who, rid, since, handed)
    requires !a.Publish? && !a.CloseRun? && !a.Deliver?
    ensures InStep(Do(n, a), who, rid, since, handed)
  {
    assert Outbox(Do(n, a), rid) == Outbox(n, rid) && Do(n, a).tasks == n.tasks;
  }

  lemma {:induction false} StepInStep(n: Net, a: Action, who: SubscriberId, rid: RunId, since: nat, handed: seq<Item>)
    requires Delivering(n) && Enabled(n, a) && InStep(n, who, rid, since, handed) && Open(n, who, rid)
    requires Sends(a, rid) ==> Owing(n.tasks, who) == []
    ensures InStep(Do(n, a), who, rid, since, handed + HandedBy(n, a, who))
  {
    assert handed + [] == handed;
    match a
    case Publish(r, created, now, draft) =>
      RegisteredIff(n, r, who);
      PublishInStep(n, r, created, now, draft, who, rid, since, handed);
    case CloseRun(r) =>
      RegisteredIff(n, r, who);
      CloseInStep(n, r, who, rid, since, handed);
    case Deliver(i, reachable) => DeliverInStep(n, i, reachable, who, rid, since, handed);
    case _ => OtherInStep(n, a, who, rid, since, handed);
  }

  lemma {:induction false} SerialInStep(n: Net, steps: seq<Action>, m: Net, who: SubscriberId, rid: RunId, since: nat,
                                        handed: seq<Item>)
    requires Delivering(n) && Leads(n, steps, m) && Serial(n, steps, who, rid) && InStep(n, who, rid, since, handed)
    requires Open(n, who, rid) && Spares(steps, who, true)
    ensures InStep(m, who, rid, since, handed + HandOvers(n, steps, who))
    decreases |steps|
  {
    if steps == [] {
      assert handed + [] == handed;
    } else {
      var a, next, rest := steps[0], Do(n, steps[0]), steps[1..];
      StepInStep(n, a, who, rid, since, handed);
      StepDelivers(n, a);
      StaysOpenOnce(n, a, who, rid);
      SparesRest(steps, who);
      SerialInStep(next, rest, m, who, rid, since, handed + HandedBy(n, a, who));
      Regroup(handed, HandedBy(n, a, who), HandOvers(next, rest, who));
    }
  }

  lemma {:induction false} SparesRest(steps: seq<Action>, who: SubscriberId)
    requires steps != [] && Spares(steps, who, true)
    ensures Spares(steps[1..], who, true)
  {
    assert forall i | 0 <= i < |steps[1..]| :: steps[1..][i] == steps[i + 1];
  }

  lemma Regroup(a: seq<Item>, b: seq<Item>, c: seq<Item>)
    ensures a + b + c == a + (b + c)
  {
  }

  lemma {:induction false} OwingIsOwed(n: Net, who: SubscriberId, i: nat)
    requires Delivering(n) && who in n.boxes && i < |n.tasks| && who in n.tasks[i].remaining
    ensures Owed(n, who) != []
  {
    var x := n.tasks[i].item;
    InFlightIffTask(n.tasks, who, x);
    assert InOnePlace(n, who, x);
  }

  lemma {:induction false} NothingOwingAtFirst(n: Net, who: SubscriberId)
    requires Delivering(n) && who in n.boxes && Owed(n, who) == []
    ensures Owing(n.tasks, who) == []
  {
    if Owing(n.tasks, who) != [] {
      var i := OwingFrom(n.tasks, who);
      OwingIsOwed(n, who, i);
    }
  }

  lemma {:induction false} OwingFrom(tasks: seq<Task>, who: SubscriberId) returns (i: nat)
    requires Owing(tasks, who) != []
    ensures i < |tasks| && who in tasks[i].remaining
  {
    var n := |tasks| - 1;
    if who in tasks[n].remaining {
      i := n;
    } else {
      assert Owing(tasks[..n], who) + [] == Owing(tasks[..n], who);
      i := OwingFrom(tasks[..n], who);
    }
  }

  lemma {:induction false} SparesAll(v: Visit)
    requires IsVisit(v)
    ensures Spares(StepsOf(v), v.who, true)
  {
    forall i | 0 <= i < |StepsOf(v)| ensures StepsOf(v)[i] != Unsubscribe(v.who) {
      if i < |v.toReplay| {
        assert StepsOf(v)[i] == v.toReplay[i];
      } else if i < |v.toReplay| + |v.toCheck| {
        assert StepsOf(v)[i] == v.toCheck[i - |v.toReplay|];
      } else {
        assert StepsOf(v)[i] == v.toEnd[i - |v.toReplay| - |v.toCheck|];
      }
    }
  }

  lemma {:induction false} SentSince(v: Visit)
    requires Sound(v)
    ensures Outbox(v.ended, v.rid)[|Outbox(v.joined, v.rid)|..] == Prior(v) + Sent(v)
  {
    var middle, all := Outbox(v.replayed, v.rid), Outbox(v.ended, v.rid);
    assert all == middle + all[|middle|..];
  }

  /** One hand-over at a time, all over at the end: the subscriber was handed what was sent, in that order. */
  lemma {:induction false} SerialHandsOverAll(v: Visit)
    requires IsVisit(v) && Serial(v.joined, StepsOf(v), v.who, v.rid) && Owing(v.ended.tasks, v.who) == []
    ensures HandOvers(v.joined, StepsOf(v), v.who) == Prior(v) + Sent(v)
  {
    var since := |Outbox(v.joined, v.rid)|;
    VisitLeads(v);
    SparesAll(v);
    StartInStep(v.joined, v.who, v.rid);
    SerialInStep(v.joined, StepsOf(v), v.ended, v.who, v.rid, since, []);
    var handed := HandOvers(v.joined, StepsOf(v), v.who);
    assert [] + handed == handed && handed + [] == handed;
    VisitIsSound(v);
    SentSince(v);
  }

  lemma {:induction false} StartInStep(n: Net, who: SubscriberId, rid: RunId)
    requires Inv(n) && who in n.boxes && n.boxes[who] == Mailbox(rid, |Outbox(n, rid)|, None, [], [], [], [])
    ensures InStep(n, who, rid, |Outbox(n, rid)|, [])
  {
    var out := Outbox(n, rid);
    assert out[|out|..] == [];
    NothingOwingAtFirst(n, who);
    assert [] + Owing(n.tasks, who) == out[|out|..];
  }

  // --- the numbering of a run that stays --------------------------------------

  lemma {:induction false} StepKeepsBirths(n: Net, a: Action, rid: RunId)
    requires Enabled(n, a) && RunsFit(n)
    ensures Birth(n, rid) <= Birth(Do(n, a), rid)
  {
    assert Fits(n, rid);
  }

  lemma {:induction false} BirthsGrow(n: Net, steps: seq<Action>, m: Net, rid: RunId)
    requires Inv(n) && Leads(n, steps, m)
    ensures Birth(n, rid) <= Birth(m, rid)
    decreases |steps|
  {
    if steps != [] {
      StepKeepsBirths(n, steps[0], rid);
      StepKeepsInv(n, steps[0]);
      BirthsGrow(Do(n, steps[0]), steps[1..], m, rid);
    }
  }

  /** The run was not inserted afresh from the subscription to the end of the loop. */
  predicate NotReinserted(v: Visit) { Birth(v.ended, v.rid) == Birth(v.joined, v.rid) }

  lemma {:induction false} BirthThroughout(v: Visit)
    requires IsVisit(v) && NotReinserted(v)
    ensures Birth(v.checked, v.rid) == Birth(v.replayed, v.rid) == Birth(v.joined, v.rid)
  {
    VisitIsSound(v);
    BirthsGrow(v.joined, v.toReplay, v.replayed, v.rid);
    BirthsGrow(v.replayed, v.toCheck, v.checked, v.rid);
    BirthsGrow(v.checked, v.toEnd, v.ended, v.rid);
  }

  lemma {:induction false} EventsOfConcat(a: seq<Item>, b: seq<Item>)
    ensures EventsOf(a + b) == EventsOf(a) + EventsOf(b)
    decreases |b|
  {
    if b == [] {
      assert a + b == a;
    } else {
      var n := |b| - 1;
      assert (a + b)[..|a + b| - 1] == a + b[..n];
      EventsOfConcat(a, b[..n]);
    }
  }

  lemma {:induction false} RisesSplit(a: seq<Event>, b: seq<Event>)
    requires Rises(0, a + b)
    ensures Rises(LastNumber(Last(a, EVENTS_PER_RUN)), b)
  {
    var all := a + b;
    var floor := LastNumber(Last(a, EVENTS_PER_RUN));
    assert forall k | 0 <= k < |b| :: all[|a| + k] == b[k];
    if a != [] {
      var last := Last(a, EVENTS_PER_RUN);
      assert last[|last| - 1] == a[|a| - 1] == all[|a| - 1];
    }
    forall k | 0 <= k < |b| ensures b[k].sequence > floor {
      assert all[|a| + k].sequence > 0;
    }
    forall k, j | 0 <= k < j < |b| ensures b[k].sequence < b[j].sequence {
      assert all[|a| + k].sequence < all[|a| + j].sequence;
    }
  }

  /** The items of the run, before the replay and after it. */
  lemma {:induction false} PresentIsBoth(v: Visit)
    requires Sound(v) && Steady(v) && NotReinserted(v)
    ensures Present(v.ended, v.rid) == Earlier(v) + Later(v)
    ensures Outbox(v.ended, v.rid)[Birth(v.joined, v.rid)..]
         == Outbox(v.replayed, v.rid)[Birth(v.joined, v.rid)..] + Sent(v)
  {
    var out, all, birth := Outbox(v.replayed, v.rid), Outbox(v.ended, v.rid), Birth(v.joined, v.rid);
    assert all == out + all[|out|..];
    assert all[birth..] == out[birth..] + Sent(v);
    EventsOfConcat(out[birth..], Sent(v));
  }

  /** A run that stays numbers on. */
  lemma {:induction false} NumbersGoOn(v: Visit)
    requires Sound(v) && Steady(v) && NotReinserted(v)
    ensures Rises(Replayed(v), Later(v))
  {
    PresentIsBoth(v);
    ReplayIsTheLatest(v);
    assert NumbersFitAt(v.ended, v.rid);
    RisesSplit(Earlier(v), Later(v));
  }

  lemma {:induction false} EventAt(items: seq<Item>, k: nat) returns (i: nat)
    requires k < |items| && items[k].Published?
    ensures i < |EventsOf(items)| && EventsOf(items)[i] == items[k].event && i == |EventsOf(items[..k])|
  {
    assert items == items[..k] + [items[k]] + items[k + 1..];
    EventsOfConcat(items[..k] + [items[k]], items[k + 1..]);
    EventsOfAppend(items[..k], items[k]);
    i := |EventsOf(items[..k])|;
  }

  lemma {:induction false} ItemsRise(items: seq<Item>, i: nat, j: nat)
    requires Rises(0, EventsOf(items)) && i < j < |items| && items[i].Published? && items[j].Published?
    ensures items[i].event.sequence < items[j].event.sequence
  {
    var p := EventAt(items, i);
    var q := EventAt(items, j);
    assert items[..j] == items[..i] + items[i..j];
    EventsOfConcat(items[..i], items[i..j]);
    assert items[i..j][0] == items[i];
    var k := EventAt(items[i..j], 0);
  }

  // --- the schedule as a discipline -------------------------------------------

  /** No event after a close. */
  ghost predicate NothingAfterClose(items: seq<Item>) {
    forall i, j | 0 <= i < j < |items| && items[j].Published? :: items[i].Published?
  }

  /** A run not finished at the check had not been closed until then. */
  lemma {:induction false} NotYetClosed(v: Visit)
    requires IsVisit(v) && Steady(v) && NotReinserted(v) && !IsFinished(v.checked.bus, v.rid)
    ensures Sentinel !in Prior(v)
  {
    var birth, since := Birth(v.joined, v.rid), |Outbox(v.joined, v.rid)|;
    var out, later := Outbox(v.replayed, v.rid), Outbox(v.checked, v.rid);
    VisitIsSound(v);
    BirthThroughout(v);
    RunExtends(v.replayed, v.toCheck, v.checked);
    assert Fits(v.checked, v.rid);
    assert out <= later;
    TailWithin(out, birth, since);
    assert later[birth..] == out[birth..] + later[|out|..];
  }

  /** What the subscriber was owed, item by item. */
  lemma {:induction false} WindowIsInOrderIff(v: Visit)
    requires IsVisit(v) && Steady(v) && NotReinserted(v) && !IsFinished(v.checked.bus, v.rid)
    ensures ArrivesInOrder(Replayed(v), Prior(v) + Sent(v)) <==> NothingAfterClose(Sent(v))
  {
    VisitIsSound(v);
    if NothingAfterClose(Sent(v)) {
      WindowInOrder(v);
    }
    if ArrivesInOrder(Replayed(v), Prior(v) + Sent(v)) {
      NumbersGoOn(v);
      NoEventAfterClose(Replayed(v), Prior(v), Sent(v));
    }
  }

  lemma {:induction false} NoEventAfterClose(replayed: nat, prior: seq<Item>, sent: seq<Item>)
    requires ArrivesInOrder(replayed, prior + sent) && Rises(replayed, EventsOf(sent))
    ensures NothingAfterClose(sent)
  {
    var window := prior + sent;
    EventsOfMembers(sent);
    forall i, j | 0 <= i < j < |sent| && sent[j].Published? ensures sent[i].Published? {
      assert sent[j].event in EventsOf(sent);
      assert window[|prior| + j] == sent[j] && window[|prior| + i] == sent[i];
      assert IsFresh(replayed, window[|prior| + j]);
    }
  }

  lemma {:induction false} WindowInOrder(v: Visit)
    requires IsVisit(v) && Steady(v) && NotReinserted(v) && !IsFinished(v.checked.bus, v.rid)
    requires NothingAfterClose(Sent(v))
    ensures ArrivesInOrder(Replayed(v), Prior(v) + Sent(v))
  {
    VisitIsSound(v);
    NotYetClosed(v);
    var window := Prior(v) + Sent(v);
    forall i, j | 0 <= i < j < |window| && IsFresh(Replayed(v), window[j])
      ensures window[i].Published? && window[i].event.sequence < window[j].event.sequence
    {
      FreshIsLater(v, j);
      PublishedBefore(v, Prior(v), i, j);
      WindowRises(v, i, j);
    }
  }

  lemma InTheSecond(prior: seq<Item>, sent: seq<Item>, j: nat)
    requires j < |prior + sent| && (prior + sent)[j] !in prior
    ensures j >= |prior|
  {
  }

  lemma {:induction false} FreshIsLater(v: Visit, j: nat)
    requires Sound(v) && Steady(v)
    requires j < |Prior(v) + Sent(v)| && IsFresh(Replayed(v), (Prior(v) + Sent(v))[j])
    ensures j >= |Prior(v)|
  {
    var e := (Prior(v) + Sent(v))[j].event;
    OldIsNotFresh(v, e);
    CountIffIn(Prior(v), Published(e));
    InTheSecond(Prior(v), Sent(v), j);
  }

  lemma {:induction false} PublishedBefore(v: Visit, prior: seq<Item>, i: nat, j: nat)
    requires Sentinel !in prior && NothingAfterClose(Sent(v))
    requires i < j < |prior + Sent(v)| && j >= |prior| && (prior + Sent(v))[j].Published?
    ensures (prior + Sent(v))[i].Published?
  {
    var window := prior + Sent(v);
    if i < |prior| {
      assert window[i] == prior[i];
      assert prior[i] in prior;
    } else {
      assert window[i] == Sent(v)[i - |prior|] && window[j] == Sent(v)[j - |prior|];
    }
  }

  /** The run's items, up to the subscription and from there. */
  lemma {:induction false} RunIsOldAndWindow(v: Visit)
    requires Sound(v) && Steady(v) && NotReinserted(v)
    ensures Birth(v.joined, v.rid) <= |Outbox(v.joined, v.rid)| <= |Outbox(v.replayed, v.rid)|
    ensures Outbox(v.ended, v.rid)[Birth(v.joined, v.rid)..]
         == Outbox(v.replayed, v.rid)[Birth(v.joined, v.rid)..|Outbox(v.joined, v.rid)|] + (Prior(v) + Sent(v))
  {
    var birth, since, out := Birth(v.joined, v.rid), |Outbox(v.joined, v.rid)|, Outbox(v.replayed, v.rid);
    PresentIsBoth(v);
    assert out[birth..] == out[birth..since] + Prior(v);
  }

  lemma {:induction false} SuffixRises(before: seq<Item>, window: seq<Item>, i: nat, j: nat)
    requires Rises(0, EventsOf(before + window)) && i < j < |window| && window[i].Published? && window[j].Published?
    ensures window[i].event.sequence < window[j].event.sequence
  {
    var all := before + window;
    assert all[|before| + i] == window[i] && all[|before| + j] == window[j];
    ItemsRise(all, |before| + i, |before| + j);
  }

  lemma {:induction false} WindowRises(v: Visit, i: nat, j: nat)
    requires Sound(v) && Steady(v) && NotReinserted(v) && i < j < |Prior(v) + Sent(v)|
    requires (Prior(v) + Sent(v))[i].Published? && (Prior(v) + Sent(v))[j].Published?
    ensures (Prior(v) + Sent(v))[i].event.sequence < (Prior(v) + Sent(v))[j].event.sequence
  {
    RunIsOldAndWindow(v);
    assert NumbersFitAt(v.ended, v.rid);
    var birth, since, out := Birth(v.joined, v.rid), |Outbox(v.joined, v.rid)|, Outbox(v.replayed, v.rid);
    SuffixRises(out[birth..since], Prior(v) + Sent(v), i, j);
  }

  lemma {:induction false} AllOfWindowRead(v: Visit, prior: seq<Item>)
    ensures AllRead(Later(v), prior + Sent(v))
  {
    EventsOfMembers(Sent(v));
  }

  /**
   Known beforehand. Let each publish and close of the run be handed over before the next begins, let nothing be
   dropped and everything handed over be read, up to the sentinel at which the loop stops, and let the run not be
   inserted afresh. Then the browser is sent every event of the run exactly when the bounded buffer had lost none
   before the replay, and the run was either finished at the check with nothing published since the replay, or not
   published to after being closed.
   */
  lemma {:induction false} SerialVisitIff(v: Visit)
    requires IsVisit(v) && Steady(v) && NotReinserted(v)
    requires Serial(v.joined, StepsOf(v), v.who, v.rid) && Owing(v.ended.tasks, v.who) == [] && ReadOut(v)
    ensures Whole(v) <==>
              && |Earlier(v)| <= EVENTS_PER_RUN
              && if IsFinished(v.checked.bus, v.rid) then Later(v) == [] else NothingAfterClose(Sent(v))
  {
    VisitIsSound(v);
    WholeIffHandedInOrder(v);
    SerialHandsOverAll(v);
    if !IsFinished(v.checked.bus, v.rid) {
      NumbersGoOn(v);
      WindowIsInOrderIff(v);
      AllOfWindowRead(v, Prior(v));
    }
  }

  // --- the ways it is not whole -----------------------------------------------

  /** Run the next steps of a visit that has just replayed. */
  function Continue(v: Visit, toCheck: seq<Action>, checked: Net, toEnd: seq<Action>, ended: Net): Visit {
    v.(toCheck := toCheck, checked := checked, toEnd := toEnd, ended := ended)
  }

  lemma {:induction false} PublishAndClose(n: Net, rid: RunId, created: real, now: real, draft: Draft)
    returns (steps: seq<Action>, m: Net, e: Event)
    requires Constructible(draft) && rid in n.bus.runs
    ensures steps == [Publish(rid, created, now, draft)] + [CloseRun(rid)] && Leads(n, steps, m)
    ensures Outbox(m, rid) == Outbox(n, rid) + [Published(e)] + [Sentinel]
    ensures m.boxes == n.boxes && rid in m.bus.runs && IsFinished(m.bus, rid) && Birth(m, rid) == Birth(n, rid)
  {
    var a, b := Publish(rid, created, now, draft), CloseRun(rid);
    var n1 := Do(n, a);
    e := NextEvent(n, rid, created, now, draft);
    m := Do(n1, b);
    LeadsOne(n, a);
    LeadsOne(n1, b);
    LeadsThen(n, [a], n1, [b], m);
    steps := [a] + [b];
  }

  lemma {:induction false} SentTwo(out: seq<Item>, e: Event, all: seq<Item>)
    requires all == out + [Published(e)] + [Sentinel]
    ensures EventsOf(all[|out|..]) == [e]
  {
    assert all[|out|..] == [Published(e)] + [Sentinel];
    LastTwo(e);
  }

  lemma {:induction false} LastTwo(e: Event)
    ensures EventsOf([Published(e)] + [Sentinel]) == [e]
  {
    EventsOfConcat([Published(e)], [Sentinel]);
    assert [Published(e)][..0] == [] && [Sentinel][..0] == [] && [] + [e] == [e] && [e] + [] == [e];
  }

  lemma {:induction false} SparesTwo(rid: RunId, created: real, now: real, draft: Draft, who: SubscriberId)
    ensures Spares([Publish(rid, created, now, draft)] + [CloseRun(rid)], who, false)
    ensures Spares([Publish(rid, created, now, draft)] + [CloseRun(rid)], who, true)
  {
  }

  /**
   Closed in the gap. From any visit that has replayed a run, a publish and a close before the check make the relay
   leave at once: the event is owed, on its way, and never shown.
   */
  lemma {:induction false} ClosedInTheGap(v: Visit, created: real, now: real, draft: Draft)
    returns (w: Visit, e: Event)
    requires IsVisit(v) && Steady(v) && v.toCheck == [] && v.toEnd == [] && Constructible(draft)
    ensures IsVisit(w) && Steady(w) && w.joined == v.joined && w.replayed == v.replayed
    ensures Later(w) == [e] && IsFinished(w.checked.bus, w.rid)
    ensures w.who in w.ended.boxes && Published(e) in Owed(w.ended, w.who)
    ensures !Whole(w)
  {
    assert v.checked == v.replayed && v.ended == v.replayed;
    var steps, m;
    steps, m, e := PublishAndClose(v.replayed, v.rid, created, now, draft);
    SparesTwo(v.rid, created, now, draft, v.who);
    w := Continue(v, steps, m, [], m);
    assert Leads(m, [], m);
    VisitIsSound(w);
    SentTwo(Outbox(v.replayed, v.rid), e, Outbox(m, v.rid));
    OwedIsOldAndSent(w);
    EventsOfMembers(Sent(w));
    WholeIff(w);
  }

  /** `w` is `v` with one event published, and the run closed, after the loop of `v` ended. */
  ghost predicate ClosedLater(v: Visit, w: Visit, e: Event) {
    && IsVisit(w) && w == Continue(v, v.toCheck, v.checked, w.toEnd, w.ended)
    && Outbox(w.ended, v.rid) == Outbox(v.ended, v.rid) + [Published(e)] + [Sentinel]
    && w.ended.boxes == v.ended.boxes && Birth(w.ended, v.rid) == Birth(v.ended, v.rid)
  }

  lemma {:induction false} LateEventIsLost(v: Visit, w: Visit, e: Event)
    requires IsVisit(v) && Steady(v) && NotReinserted(v) && !IsFinished(v.checked.bus, v.rid) && ClosedLater(v, w, e)
    ensures Later(w) == Later(v) + [e] && Read(w) == Read(v) && !Whole(w)
  {
    VisitIsSound(v);
    VisitIsSound(w);
    LaterGrows(v, w, e);
    NewEventIsUnread(v, w, e);
  }

  /**
   Gone idle. The same two steps while the loop waits on an empty queue: at the next timeout the run is finished and
   the loop ends, with the event still on its way.
   */
  lemma {:induction false} LeftWhileIdle(v: Visit, created: real, now: real, draft: Draft)
    returns (w: Visit, e: Event)
    requires IsVisit(v) && Steady(v) && NotReinserted(v) && Constructible(draft)
    requires !IsFinished(v.checked.bus, v.rid) && v.rid in v.ended.bus.runs
    requires v.who in v.ended.boxes && v.ended.boxes[v.who].queued == []
    ensures ClosedLater(v, w, e) && Later(w) == Later(v) + [e] && !Whole(w)
    ensures v.who in w.ended.boxes && w.ended.boxes[v.who].queued == [] && IsFinished(w.ended.bus, v.rid)
  {
    var steps, m;
    steps, m, e := PublishAndClose(v.ended, v.rid, created, now, draft);
    SparesTwo(v.rid, created, now, draft, v.who);
    w := GoOn(v, steps, m);
    LateEventIsLost(v, w, e);
  }

  /** The same visit, its loop ending a few steps later. */
  lemma {:induction false} GoOn(v: Visit, steps: seq<Action>, m: Net) returns (w: Visit)
    requires IsVisit(v) && Leads(v.ended, steps, m) && Spares(steps, v.who, true)
    ensures IsVisit(w) && w == Continue(v, v.toCheck, v.checked, v.toEnd + steps, m)
  {
    LeadsThen(v.checked, v.toEnd, v.ended, steps, m);
    w := Continue(v, v.toCheck, v.checked, v.toEnd + steps, m);
    SparesBoth(v.toEnd, steps, v.who);
  }

  lemma {:induction false} SparesBoth(a: seq<Action>, b: seq<Action>, who: SubscriberId)
    requires Spares(a, who, true) && Spares(b, who, true)
    ensures Spares(a + b, who, true)
  {
  }

  lemma {:induction false} LaterGrows(v: Visit, w: Visit, e: Event)
    requires Sound(v) && Sound(w) && w.replayed == v.replayed && w.rid == v.rid
    requires Outbox(w.ended, v.rid) == Outbox(v.ended, v.rid) + [Published(e)] + [Sentinel]
    ensures Later(w) == Later(v) + [e]
  {
    var tail := [Published(e)] + [Sentinel];
    assert Sent(w) == Sent(v) + tail;
    EventsOfConcat(Sent(v), tail);
    LastTwo(e);
  }

  /** What the reader holds from before cannot contain what was sent after. */
  lemma {:induction false} NewEventIsUnread(v: Visit, w: Visit, e: Event)
    requires IsVisit(v) && IsVisit(w) && Steady(v) && Steady(w) && Sound(v) && Sound(w) && NotReinserted(w)
    requires w.rid == v.rid && w.who == v.who && w.replayed == v.replayed && w.joined == v.joined
    requires Later(w) == Later(v) + [e] && Read(w) == Read(v) && !IsFinished(w.checked.bus, w.rid)
    ensures !Whole(w)
  {
    WholeIff(w);
    NumbersGoOn(w);
    NewIsNotIn(Replayed(w), Later(v), e);
    ReadIsWithinSent(v);
    EventsOfMembers(Sent(v));
    CountIffIn(Read(v), Published(e));
    CountIffIn(Sent(v), Published(e));
    assert e in Later(w);
  }

  lemma {:induction false} NewIsNotIn(floor: nat, before: seq<Event>, e: Event)
    requires Rises(floor, before + [e])
    ensures e !in before && e.sequence > floor && e in before + [e]
  {
    var all := before + [e];
    assert all[|before|] == e;
    forall i | 0 <= i < |before| ensures before[i] != e {
      assert all[i].sequence < all[|before|].sequence;
    }
  }

  /** Numbered again. An event numbered no higher than the replay ended on - of a run inserted afresh - is skipped. */
  lemma {:induction false} NumberedAgain(v: Visit, e: Event)
    requires IsVisit(v) && Steady(v) && e in Later(v) && e.sequence <= Replayed(v)
    ensures !Whole(v)
  {
    WholeIff(v);
  }
}
