/** Sequence numbers across threads: a run's events are numbered upwards, and a run inserted afresh starts again. */
module Numbering {
  import opened Sanitiser
  import opened BusModel
  import opened Delivery

  /** Strictly upwards, and all above `floor`. */
  ghost predicate Rises(floor: nat, events: seq<Event>) {
    && (forall i | 0 <= i < |events| :: events[i].sequence > floor)
    && forall i, j | 0 <= i < j < |events| :: events[i].sequence < events[j].sequence
  }

  /** What was published to a run id since its run was last inserted. */
  function Present(n: Net, rid: RunId): seq<Event> {
    if Birth(n, rid) <= |Outbox(n, rid)| then EventsOf(Outbox(n, rid)[Birth(n, rid)..]) else []
  }

  ghost predicate Counted(events: seq<Event>, top: nat) {
    Rises(0, events) && forall i | 0 <= i < |events| :: events[i].sequence <= top
  }

  ghost predicate NumbersFitAt(n: Net, rid: RunId) {
    && Birth(n, rid) <= |Outbox(n, rid)|
    && Rises(0, Present(n, rid))
    && (rid in n.bus.runs ==> Counted(Present(n, rid), n.bus.runs[rid].sequence))
  }

  ghost predicate NumbersFit(n: Net) { forall rid :: NumbersFitAt(n, rid) }

  lemma {:induction false} CountedGrows(events: seq<Event>, e: Event, top: nat)
    requires Counted(events, top) && e.sequence == top + 1
    ensures Counted(events + [e], top + 1)
  {
  }

  /** What the present run of a publisher holds, as counted. */
  lemma {:induction false} RunForCounted(n: Net, rid: RunId, created: real)
    requires NumbersFit(n)
    ensures var birth := if rid in n.bus.runs then Birth(n, rid) else |Outbox(n, rid)|;
            birth <= |Outbox(n, rid)|
            && Counted(EventsOf(Outbox(n, rid)[birth..]), RunFor(n.bus, rid, created).sequence)
  {
    assert NumbersFitAt(n, rid);
    if rid !in n.bus.runs {
      assert Outbox(n, rid)[|Outbox(n, rid)|..] == [];
    }
  }

  lemma {:induction false} BornAt(n: Net, rid: RunId)
    ensures (if rid in Born(n, rid) then Born(n, rid)[rid] else 0)
         == if rid in n.bus.runs then Birth(n, rid) else |Outbox(n, rid)|
    ensures forall r | r != rid :: (if r in Born(n, rid) then Born(n, rid)[r] else 0) == Birth(n, r)
  {
  }

  lemma {:induction false} OpenNumbers(n: Net, rid: RunId, now: real, r: RunId)
    requires Consistent(n.bus) && NumbersFit(n)
    ensures NumbersFitAt(Do(n, OpenRun(rid, now)), r)
  {
    assert NumbersFitAt(n, r);
    BornAt(n, rid);
    RunForCounted(n, rid, now);
    RunsAfter(n.bus, rid, now, now, Draft("", "", "", "", "", Unmeasured, "", Null), r);
  }

  lemma {:induction false} SentNumbers(n: Net, rid: RunId, item: Item, top: nat)
    requires Birth(n, rid) <= |Outbox(n, rid)| && Counted(Present(n, rid), top)
    requires item.Published? ==> item.event.sequence == top + 1
    ensures var m := Send(n, rid, item);
            Birth(m, rid) <= |Outbox(m, rid)| && Counted(Present(m, rid), top + 1)
  {
    SentPresent(n, rid, item);
    if item.Published? {
      CountedGrows(Present(n, rid), item.event, top);
    }
  }

  lemma {:induction false} SentPresent(n: Net, rid: RunId, item: Item)
    requires Birth(n, rid) <= |Outbox(n, rid)|
    ensures Present(Send(n, rid, item), rid) == Present(n, rid) + if item.Published? then [item.event] else []
    ensures item == Sentinel ==> Present(Send(n, rid, item), rid) == Present(n, rid)
  {
    var out, birth := Outbox(n, rid), Birth(n, rid);
    assert (out + [item])[birth..] == out[birth..] + [item];
    EventsOfAppend(out[birth..], item);
  }

  lemma {:induction false} OtherNumbers(n: Net, rid: RunId, created: real, now: real, draft: Draft, item: Item,
                                        r: RunId)
    requires Consistent(n.bus) && NumbersFit(n) && r != rid
    ensures var m := Recorded(n, rid, created, now, draft);
            NumbersFitAt(m, r) && NumbersFitAt(Send(m, rid, item), r)
  {
    assert NumbersFitAt(n, r);
    BornAt(n, rid);
    RunsAfter(n.bus, rid, created, now, draft, r);
  }

  lemma {:induction false} OwnNumbers(n: Net, rid: RunId, created: real, now: real, draft: Draft)
    requires Consistent(n.bus) && NumbersFit(n)
    ensures NumbersFitAt(Do(n, Publish(rid, created, now, draft)), rid)
  {
    var m := Recorded(n, rid, created, now, draft);
    var run := RunFor(n.bus, rid, created);
    BornAt(n, rid);
    RunForCounted(n, rid, created);
    RunsAfter(n.bus, rid, created, now, draft, rid);
    assert Outbox(m, rid) == Outbox(n, rid);
    assert Counted(Present(m, rid), run.sequence);
    if Constructible(draft) {
      SentNumbers(m, rid, Published(NextEvent(n, rid, created, now, draft)), run.sequence);
    }
  }

  lemma {:induction false} PublishNumbers(n: Net, rid: RunId, created: real, now: real, draft: Draft, r: RunId)
    requires Consistent(n.bus) && NumbersFit(n)
    ensures NumbersFitAt(Do(n, Publish(rid, created, now, draft)), r)
  {
    if r == rid {
      OwnNumbers(n, rid, created, now, draft);
    } else {
      var item := if Constructible(draft) then Published(NextEvent(n, rid, created, now, draft)) else Sentinel;
      OtherNumbers(n, rid, created, now, draft, item, r);
    }
  }

  lemma {:induction false} ClosedNumbers(n: Net, rid: RunId)
    requires NumbersFitAt(n, rid)
    ensures NumbersFitAt(Do(n, CloseRun(rid)), rid)
  {
    var m := n.(bus := Close(n.bus, rid));
    assert Outbox(m, rid) == Outbox(n, rid) && Birth(m, rid) == Birth(n, rid);
    SentPresent(m, rid, Sentinel);
  }

  lemma {:induction false} CloseNumbers(n: Net, rid: RunId, r: RunId)
    requires NumbersFit(n)
    ensures NumbersFitAt(Do(n, CloseRun(rid)), r)
  {
    var m := Do(n, CloseRun(rid));
    assert NumbersFitAt(n, r);
    if r == rid {
      ClosedNumbers(n, rid);
    } else {
      assert Outbox(m, r) == Outbox(n, r) && Birth(m, r) == Birth(n, r);
    }
  }

  /** Every step of every thread keeps the numbers in order. */
  lemma {:induction false} StepKeepsNumbers(n: Net, a: Action)
    requires Enabled(n, a) && Consistent(n.bus) && NumbersFit(n)
    ensures NumbersFit(Do(n, a))
  {
    var m := Do(n, a);
    forall r ensures NumbersFitAt(m, r) {
      match a
      case OpenRun(rid, now) => OpenNumbers(n, rid, now, r);
      case Publish(rid, created, now, draft) => PublishNumbers(n, rid, created, now, draft, r);
      case CloseRun(rid) => CloseNumbers(n, rid, r);
      case _ =>
        assert NumbersFitAt(n, r);
        assert m.bus.runs == n.bus.runs && Outbox(m, r) == Outbox(n, r) && Birth(m, r) == Birth(n, r);
    }
  }

  lemma {:induction false} RunKeepsNumbers(n: Net, steps: seq<Action>, m: Net)
    requires Inv(n) && NumbersFit(n) && Leads(n, steps, m)
    ensures NumbersFit(m)
    decreases |steps|
  {
    if steps != [] {
      StepKeepsNumbers(n, steps[0]);
      StepKeepsInv(n, steps[0]);
      RunKeepsNumbers(Do(n, steps[0]), steps[1..], m);
    }
  }

  /** In every reachable state the events of each run are numbered upwards since its last insertion. */
  lemma {:induction false} ReachableNumbersRise(capacity: nat, steps: seq<Action>, n: Net)
    requires Leads(Start(capacity), steps, n)
    ensures NumbersFit(n)
  {
    StartIsFine(capacity);
    RunKeepsNumbers(Start(capacity), steps, n);
  }
}
