/** What a subscriber can count on, whatever the interleaving. */
module Subscription {
  import opened BusModel
  import opened Delivery

  lemma {:induction false} CountIffIn(items: seq<Item>, x: Item)
    ensures Count(items, x) > 0 <==> x in items
  {
    if items != [] {
      var last := |items| - 1;
      CountIffIn(items[..last], x);
      assert items == items[..last] + [items[last]];
    }
  }

  lemma {:induction false} InFlightIffTask(tasks: seq<Task>, who: SubscriberId, x: Item)
    ensures InFlight(tasks, who, x) > 0
       <==> exists i | 0 <= i < |tasks| :: tasks[i].item == x && who in tasks[i].remaining
  {
    if tasks != [] {
      var last := |tasks| - 1;
      var rest := tasks[..last];
      InFlightIffTask(rest, who, x);
      if i :| 0 <= i < |tasks| && tasks[i].item == x && who in tasks[i].remaining {
        if i < last {
          assert rest[i].item == x && who in rest[i].remaining;
        }
      }
      if i :| 0 <= i < |rest| && rest[i].item == x && who in rest[i].remaining {
        assert tasks[i].item == x && who in tasks[i].remaining;
      }
    }
  }

  /** In some publisher's hands, or in one of the mailbox's four places. */
  ghost predicate Somewhere(n: Net, who: SubscriberId, x: Item)
    requires who in n.boxes
  {
    || (exists i | 0 <= i < |n.tasks| :: n.tasks[i].item == x && who in n.tasks[i].remaining)
    || x in n.boxes[who].scheduled || x in n.boxes[who].queued
    || x in n.boxes[who].consumed || x in n.boxes[who].dropped
  }

  /** An item a subscription was registered for is somewhere, and nothing else is. */
  lemma {:induction false} OwedIffSomewhere(n: Net, who: SubscriberId, x: Item)
    requires Inv(n) && who in n.boxes
    ensures x in Owed(n, who) <==> Somewhere(n, who, x)
  {
    var box := n.boxes[who];
    assert InOnePlace(n, who, x);
    CountIffIn(Owed(n, who), x);
    InFlightIffTask(n.tasks, who, x);
    CountIffIn(box.scheduled, x);
    CountIffIn(box.queued, x);
    CountIffIn(box.consumed, x);
    CountIffIn(box.dropped, x);
  }

  // --- nothing is forgotten along a run ---------------------------------------

  ghost predicate Extends(n: Net, m: Net) {
    && (forall r :: Outbox(n, r) <= Outbox(m, r))
    && forall who | who in n.boxes ::
         && who in m.boxes && m.boxes[who].rid == n.boxes[who].rid && m.boxes[who].since == n.boxes[who].since
         && (n.boxes[who].until.Some? ==> m.boxes[who].until == n.boxes[who].until)
  }

  lemma StepExtends(n: Net, a: Action)
    requires Enabled(n, a)
    ensures Extends(n, Do(n, a))
  {
  }

  lemma {:induction false} RunExtends(n: Net, steps: seq<Action>, m: Net)
    requires Leads(n, steps, m)
    ensures Extends(n, m)
    decreases |steps|
  {
    if steps != [] {
      StepExtends(n, steps[0]);
      RunExtends(Do(n, steps[0]), steps[1..], m);
    }
  }

  // --- the main results -------------------------------------------------------

  /** Pushed out of the bounded buffer before the history was read. */
  ghost predicate Trimmed(n: Net, rid: RunId, e: Event) {
    var all := EventsOf(Outbox(n, rid)[if Birth(n, rid) <= |Outbox(n, rid)| then Birth(n, rid) else 0..]);
    |all| > EVENTS_PER_RUN && e in all[..|all| - EVENTS_PER_RUN]
  }

  lemma {:induction false} EventsOfHas(items: seq<Item>, k: nat)
    requires k < |items| && items[k].Published?
    ensures items[k].event in EventsOf(items)
  {
    var last := |items| - 1;
    if k < last {
      EventsOfHas(items[..last], k);
    }
  }

  /** What was published before a moment is in the history of that moment, or was trimmed. */
  lemma {:induction false} EarlierIsInHistory(n: Net, rid: RunId, k: nat)
    requires Fits(n, rid) && rid in n.bus.runs && Birth(n, rid) <= k < |Outbox(n, rid)| && Outbox(n, rid)[k].Published?
    ensures Outbox(n, rid)[k].event in History(n.bus, rid) || Trimmed(n, rid, Outbox(n, rid)[k].event)
  {
    var birth := Birth(n, rid);
    var tail := Outbox(n, rid)[birth..];
    assert tail[k - birth] == Outbox(n, rid)[k];
    EventsOfHas(tail, k - birth);
    InLastOrBefore(EventsOf(tail), EVENTS_PER_RUN, tail[k - birth].event);
  }

  /** What is published from the registration on is owed to an open subscription. */
  lemma {:induction false} LaterIsOwed(m: Net, who: SubscriberId, k: nat)
    requires who in m.boxes && m.boxes[who].until.None? && m.boxes[who].since <= k < |Outbox(m, m.boxes[who].rid)|
    ensures Outbox(m, m.boxes[who].rid)[k] in Owed(m, who)
  {
    var box := m.boxes[who];
    assert Outbox(m, box.rid)[box.since..][k - box.since] == Outbox(m, box.rid)[k];
  }

  /** A subscription's window starts inside what had been sent, and the runs are as the invariant says. */
  lemma {:induction false} WindowOf(n: Net, who: SubscriberId)
    requires Inv(n) && who in n.boxes && n.boxes[who].until.None?
    ensures n.boxes[who].since <= |Outbox(n, n.boxes[who].rid)| && Fits(n, n.boxes[who].rid)
  {
  }

  /**
   Subscribe, then read the history, then wait. Whatever the threads do in between, every event of the
   run is in that history, was trimmed before it was read, or is owed to the subscriber - and what is
   owed is in flight, scheduled, queued, consumed or dropped.
   */
  lemma {:induction false} HistoryPlusDeliveriesMissNothing(n: Net, who: SubscriberId, steps: seq<Action>,
                                                            m: Net, k: nat)
    requires Inv(n) && Leads(n, steps, m)
    requires who in n.boxes && n.boxes[who].until.None? && n.boxes[who].rid in n.bus.runs
    requires who in m.boxes && m.boxes[who].until.None?
    requires var rid := n.boxes[who].rid;
             Birth(n, rid) <= k < |Outbox(m, rid)| && Outbox(m, rid)[k].Published?
    ensures var rid := n.boxes[who].rid;
            var e := Outbox(m, rid)[k].event;
            e in History(n.bus, rid) || Trimmed(n, rid, e) || Published(e) in Owed(m, who)
  {
    var rid := n.boxes[who].rid;
    RunExtends(n, steps, m);
    WindowOf(n, who);
    if k >= n.boxes[who].since {
      LaterIsOwed(m, who, k);
    } else {
      assert Outbox(m, rid)[k] == Outbox(n, rid)[k];
      EarlierIsInHistory(n, rid, k);
    }
  }

  lemma {:induction false} InLastOrBefore(all: seq<Event>, n: nat, e: Event)
    requires e in all
    ensures e in Last(all, n) || (|all| > n && e in all[..|all| - n])
  {
    if |all| > n {
      assert all == all[..|all| - n] + all[|all| - n..];
    }
  }

  /**
   No lost wake-up. A subscriber that was registered when the run was closed is owed the sentinel; one
   that came later finds the run finished, unless the run was inserted afresh after the close.
   */
  lemma {:induction false} CloseIsNeverMissed(n: Net, who: SubscriberId, k: nat)
    requires Inv(n) && who in n.boxes && n.boxes[who].until.None?
    requires k < |Outbox(n, n.boxes[who].rid)| && Outbox(n, n.boxes[who].rid)[k] == Sentinel
    ensures n.boxes[who].since <= k ==> Sentinel in Owed(n, who)
    ensures k < n.boxes[who].since && Birth(n, n.boxes[who].rid) <= k ==> IsFinished(n.bus, n.boxes[who].rid)
  {
    var box := n.boxes[who];
    var out := Outbox(n, box.rid);
    if box.since <= k {
      assert Owed(n, who)[k - box.since] == out[k];
    } else if Birth(n, box.rid) <= k {
      assert Fits(n, box.rid);
      assert out[Birth(n, box.rid)..][k - Birth(n, box.rid)] == out[k];
    }
  }
}
