/** The live stream: what the SSE relay shows of a run, whatever the publishers do meanwhile. */
module Relay {
  import opened Options
  import opened BusModel
  import opened Delivery
  import opened Numbering
  import opened Subscription

  // --- the relay's own code ---------------------------------------------------

  /** How a wait on the queue ends: with an item, or with a timeout and what `is_finished` then says. */
  datatype Wait = Got(item: Item) | TimedOut(finished: bool)

  const MAX_IDLE: nat := 80

  /** The items read until the loop ends: at the sentinel, or on a timeout of a run finished or idle for too long. */
  function Reads(waits: seq<Wait>, idle: nat): seq<Item>
    decreases |waits|
  {
    if waits == [] then []
    else if waits[0].TimedOut? then
      if waits[0].finished || idle + 1 >= MAX_IDLE then [] else Reads(waits[1..], idle + 1)
    else if waits[0].item == Sentinel then [Sentinel]
    else [waits[0].item] + Reads(waits[1..], 0)
  }

  /** The number of the last event replayed. */
  function LastNumber(history: seq<Event>): nat { if history == [] then 0 else history[|history| - 1].sequence }

  /** The relay's loop: stop at the sentinel, and skip every event not numbered above the last one shown. */
  function Shown(seen: nat, items: seq<Item>): seq<Event>
    decreases |items|
  {
    if items == [] || items[0] == Sentinel then []
    else if items[0].event.sequence <= seen then Shown(seen, items[1..])
    else [items[0].event] + Shown(items[0].event.sequence, items[1..])
  }

  /** The events the replay had not shown yet. */
  function Fresh(replayed: nat, items: seq<Item>): seq<Event> {
    if items == [] then []
    else if items[0].Published? && items[0].event.sequence > replayed
    then [items[0].event] + Fresh(replayed, items[1..])
    else Fresh(replayed, items[1..])
  }

  ghost predicate IsFresh(replayed: nat, item: Item) { item.Published? && item.event.sequence > replayed }

  /** Every fresh event arrives before the sentinel and above everything that arrived before it. */
  ghost predicate ArrivesInOrder(replayed: nat, items: seq<Item>) {
    forall i, j | 0 <= i < j < |items| && IsFresh(replayed, items[j]) ::
      items[i].Published? && items[i].event.sequence < items[j].event.sequence
  }

  ghost predicate AllAbove(replayed: nat, seen: nat, items: seq<Item>) {
    forall j | 0 <= j < |items| && IsFresh(replayed, items[j]) :: items[j].event.sequence > seen
  }

  lemma {:induction false} ShownIsShort(replayed: nat, seen: nat, items: seq<Item>)
    requires replayed <= seen
    ensures |Shown(seen, items)| <= |Fresh(replayed, items)|
    decreases |items|
  {
    if items != [] && items[0].Published? {
      ShownIsShort(replayed, if items[0].event.sequence <= seen then seen else items[0].event.sequence, items[1..]);
    }
  }

  lemma {:induction false} NoneFresh(replayed: nat, items: seq<Item>)
    ensures Fresh(replayed, items) == [] <==> forall j | 0 <= j < |items| :: !IsFresh(replayed, items[j])
  {
    if items != [] {
      NoneFresh(replayed, items[1..]);
      assert forall j | 0 < j < |items| :: items[j] == items[1..][j - 1];
      assert forall j | 0 <= j < |items| - 1 :: items[1..][j] == items[j + 1];
    }
  }

  lemma {:induction false} OrderOfTail(replayed: nat, seen: nat, items: seq<Item>)
    requires items != []
    ensures ArrivesInOrder(replayed, items) && AllAbove(replayed, seen, items)
       <==> && (IsFresh(replayed, items[0]) ==> items[0].event.sequence > seen)
            && ArrivesInOrder(replayed, items[1..]) && AllAbove(replayed, seen, items[1..])
            && (items[0].Published? ==> AllAbove(replayed, items[0].event.sequence, items[1..]))
            && (items[0] == Sentinel ==> forall j | 0 < j < |items| :: !IsFresh(replayed, items[j]))
  {
    var rest := items[1..];
    assert forall j | 0 < j < |items| :: items[j] == rest[j - 1];
    assert forall j | 0 <= j < |rest| :: rest[j] == items[j + 1];
    if && (IsFresh(replayed, items[0]) ==> items[0].event.sequence > seen)
       && ArrivesInOrder(replayed, rest) && AllAbove(replayed, seen, rest)
       && (items[0].Published? ==> AllAbove(replayed, items[0].event.sequence, rest))
       && (items[0] == Sentinel ==> forall j | 0 < j < |items| :: !IsFresh(replayed, items[j]))
    {
      forall i, j | 0 <= i < j < |items| && IsFresh(replayed, items[j])
        ensures items[i].Published? && items[i].event.sequence < items[j].event.sequence
      {
        if i > 0 {
          assert IsFresh(replayed, rest[j - 1]) && rest[i - 1] == items[i];
        }
      }
    }
  }

  lemma {:induction false} ShownIff(replayed: nat, seen: nat, items: seq<Item>)
    requires replayed <= seen
    ensures Shown(seen, items) == Fresh(replayed, items)
       <==> ArrivesInOrder(replayed, items) && AllAbove(replayed, seen, items)
    decreases |items|
  {
    if items == [] {
    } else {
      OrderOfTail(replayed, seen, items);
      NoneFresh(replayed, items[1..]);
      if items[0].Published? {
        var e := items[0].event;
        ShownIsShort(replayed, if e.sequence <= seen then seen else e.sequence, items[1..]);
        if e.sequence <= seen {
          ShownIff(replayed, seen, items[1..]);
        } else {
          ShownIff(replayed, e.sequence, items[1..]);
          var shown, wanted := Shown(e.sequence, items[1..]), Fresh(replayed, items[1..]);
          assert Shown(seen, items)[1..] == shown && Fresh(replayed, items)[1..] == wanted;
        }
      } else {
        assert forall j | 0 < j < |items| :: items[j] == items[1..][j - 1];
        assert forall j | 0 <= j < |items| - 1 :: items[1..][j] == items[j + 1];
      }
    }
  }

  /** The loop shows every fresh item it reads exactly when they are read in sequence order, before the sentinel. */
  lemma {:induction false} LoopShowsAllIffInOrder(replayed: nat, items: seq<Item>)
    ensures Shown(replayed, items) == Fresh(replayed, items) <==> ArrivesInOrder(replayed, items)
  {
    ShownIff(replayed, replayed, items);
  }

  /** The generator: replay, check, loop. */
  method Stream(history: seq<Event>, finished: bool, waits: seq<Wait>) returns (shown: seq<Event>, read: seq<Item>)
    ensures read == if finished then [] else Reads(waits, 0)
    ensures shown == history + if finished then [] else Shown(LastNumber(history), read)
  {
    var seen := 0;
    shown, read := [], [];
    for i := 0 to |history|
      invariant shown == history[..i] && seen == LastNumber(history[..i])
    {
      seen := history[i].sequence;
      shown := shown + [history[i]];
    }
    assert history[..|history|] == history;
    if finished {
      return;
    }
    var looped;
    looped, read := Loop(seen, waits);
    shown := shown + looped;
  }

  lemma {:induction false} ShownStep(seen: nat, items: seq<Item>, last: nat, item: Item)
    requires LoopGoesOn(items) && last == SeenAfter(seen, items)
    ensures Shown(seen, items + [item]) == Shown(seen, items)
              + if item.Published? && item.event.sequence > last then [item.event] else []
    ensures SeenAfter(seen, items + [item])
         == if item.Published? && item.event.sequence > last then item.event.sequence else last
    decreases |items|
  {
    var more := items + [item];
    if items == [] {
      assert more == [item] && more[1..] == [];
    } else {
      assert more[1..] == items[1..] + [item];
      var e := items[0].event;
      ShownStep(if e.sequence <= seen then seen else e.sequence, items[1..], last, item);
      if e.sequence > seen {
        assert [e] + (Shown(e.sequence, items[1..]) + []) == [e] + Shown(e.sequence, items[1..]) + [];
      }
    }
  }

  /** Only events so far. */
  predicate LoopGoesOn(items: seq<Item>) { forall i | 0 <= i < |items| :: items[i].Published? }

  function SeenAfter(seen: nat, items: seq<Item>): nat
    decreases |items|
  {
    if items == [] || items[0] == Sentinel then seen
    else SeenAfter(if items[0].event.sequence <= seen then seen else items[0].event.sequence, items[1..])
  }

  method Loop(start: nat, waits: seq<Wait>) returns (shown: seq<Event>, read: seq<Item>)
    ensures read == Reads(waits, 0) && shown == Shown(start, read)
  {
    var seen, idle := start, 0;
    shown, read := [], [];
    for i := 0 to |waits|
      invariant LoopGoesOn(read) && shown == Shown(start, read) && seen == SeenAfter(start, read)
      invariant Reads(waits, 0) == read + Reads(waits[i..], idle)
    {
      var wait := waits[i];
      assert waits[i..][1..] == waits[i + 1..];
      if wait.TimedOut? {
        idle := idle + 1;
        if wait.finished || idle >= MAX_IDLE {
          return;
        }
      } else {
        ShownStep(start, read, seen, wait.item);
        assert read + ([wait.item] + Reads(waits[i + 1..], 0)) == read + [wait.item] + Reads(waits[i + 1..], 0);
        read := read + [wait.item];
        idle := 0;
        if wait.item == Sentinel {
          return;
        }
        if wait.item.event.sequence > seen {
          seen := wait.item.event.sequence;
          shown := shown + [wait.item.event];
        }
      }
    }
  }

  // --- what is shown of what was published ------------------------------------

  lemma {:induction false} FreshAbove(replayed: nat, items: seq<Item>)
    ensures forall e :: e in Fresh(replayed, items) <==> Published(e) in items && e.sequence > replayed
  {
    if items != [] {
      FreshAbove(replayed, items[1..]);
      assert items == [items[0]] + items[1..];
    }
  }

  lemma {:induction false} ShownIsRead(seen: nat, items: seq<Item>)
    ensures forall e | e in Shown(seen, items) :: Published(e) in items
    ensures Rises(seen, Shown(seen, items))
    decreases |items|
  {
    if items != [] && items[0].Published? {
      var e := items[0].event;
      assert items == [items[0]] + items[1..];
      if e.sequence <= seen {
        ShownIsRead(seen, items[1..]);
      } else {
        ShownIsRead(e.sequence, items[1..]);
        RisesCons(seen, e, Shown(e.sequence, items[1..]));
      }
    }
  }

  lemma {:induction false} RisesCons(floor: nat, e: Event, events: seq<Event>)
    requires e.sequence > floor && Rises(e.sequence, events)
    ensures Rises(floor, [e] + events)
  {
  }

  lemma {:induction false} NoMembersIsEmpty(events: seq<Event>)
    ensures events == [] <==> forall e :: e !in events
  {
    if events != [] {
      assert events[0] in events;
    }
  }

  lemma {:induction false} FirstIsLowest(floor: nat, events: seq<Event>, e: Event)
    requires Rises(floor, events) && e in events
    ensures events[0].sequence <= e.sequence && (events[0].sequence == e.sequence ==> events[0] == e)
  {
    var i :| 0 <= i < |events| && events[i] == e;
    if i > 0 {
      assert events[0].sequence < events[i].sequence;
    }
  }

  lemma {:induction false} SameFirst(floor: nat, a: seq<Event>, b: seq<Event>)
    requires Rises(floor, a) && Rises(floor, b) && a != [] && b != [] && a[0] in b && b[0] in a
    ensures a[0] == b[0]
  {
    FirstIsLowest(floor, a, b[0]);
    FirstIsLowest(floor, b, a[0]);
  }

  lemma {:induction false} RisesUnique(floor: nat, a: seq<Event>, b: seq<Event>)
    requires Rises(floor, a) && Rises(floor, b) && forall e :: e in a <==> e in b
    ensures a == b
    decreases |a|
  {
    NoMembersIsEmpty(a);
    NoMembersIsEmpty(b);
    if a != [] {
      assert a[0] in a && b[0] in b;
      SameFirst(floor, a, b);
      RisesTail(floor, a);
      RisesTail(floor, b);
      RisesUnique(a[0].sequence, a[1..], b[1..]);
      assert a == [a[0]] + a[1..] && b == [b[0]] + b[1..];
    }
  }

  lemma {:induction false} RisesTail(floor: nat, a: seq<Event>)
    requires Rises(floor, a) && a != []
    ensures Rises(a[0].sequence, a[1..])
    ensures forall e :: e in a[1..] <==> e in a && e != a[0]
  {
    var t := a[1..];
    assert forall i | 0 <= i < |t| :: t[i] == a[i + 1];
    assert a == [a[0]] + t;
  }

  /** Showing as much as is fresh is showing all that is fresh. */
  lemma {:induction false} AsMuchIsAll(replayed: nat, seen: nat, items: seq<Item>)
    requires replayed <= seen && |Shown(seen, items)| == |Fresh(replayed, items)|
    ensures Shown(seen, items) == Fresh(replayed, items)
    decreases |items|
  {
    if items != [] {
      if items[0] == Sentinel {
        assert Shown(seen, items) == [];
      } else {
        var e := items[0].event;
        ShownIsShort(replayed, if e.sequence <= seen then seen else e.sequence, items[1..]);
        AsMuchIsAll(replayed, if e.sequence <= seen then seen else e.sequence, items[1..]);
      }
    }
  }

  function CountEvent(events: seq<Event>, e: Event): nat {
    if events == [] then 0 else CountEvent(events[1..], e) + if events[0] == e then 1 else 0
  }

  lemma {:induction false} FreshCounts(replayed: nat, items: seq<Item>, e: Event)
    requires e.sequence > replayed
    ensures CountEvent(Fresh(replayed, items), e) == Count(items, Published(e))
  {
    if items != [] {
      FreshCounts(replayed, items[1..], e);
      CountTail(items, Published(e));
      var f := Fresh(replayed, items);
      if items[0].Published? && items[0].event.sequence > replayed {
        assert f[1..] == Fresh(replayed, items[1..]);
      }
    }
  }

  lemma {:induction false} CountEventAppend(events: seq<Event>, x: Event, e: Event)
    ensures CountEvent(events + [x], e) == CountEvent(events, e) + if x == e then 1 else 0
  {
    if events == [] {
      assert events + [x] == [x] && [x][1..] == [];
    } else {
      assert (events + [x])[1..] == events[1..] + [x];
      CountEventAppend(events[1..], x, e);
    }
  }

  lemma {:induction false} EventsCount(items: seq<Item>, e: Event)
    ensures CountEvent(EventsOf(items), e) == Count(items, Published(e))
  {
    if items != [] {
      var n := |items| - 1;
      EventsCount(items[..n], e);
      if items[n].Published? {
        CountEventAppend(EventsOf(items[..n]), items[n].event, e);
      } else {
        assert EventsOf(items[..n]) + [] == EventsOf(items[..n]);
      }
    }
  }

  lemma {:induction false} CountEventIffIn(events: seq<Event>, e: Event)
    ensures CountEvent(events, e) > 0 <==> e in events
  {
    if events != [] {
      assert events == [events[0]] + events[1..];
      CountEventIffIn(events[1..], e);
    }
  }

  lemma {:induction false} RisingCountsOnce(floor: nat, events: seq<Event>, e: Event)
    requires Rises(floor, events)
    ensures CountEvent(events, e) == if e in events then 1 else 0
    decreases |events|
  {
    CountEventIffIn(events, e);
    if events != [] {
      RisesTail(floor, events);
      RisingCountsOnce(events[0].sequence, events[1..], e);
    }
  }

  ghost predicate CountsWithin(small: seq<Event>, large: seq<Event>) {
    forall e :: CountEvent(small, e) <= CountEvent(large, e)
  }

  lemma {:induction false} CountEventConcat(a: seq<Event>, b: seq<Event>, e: Event)
    ensures CountEvent(a + b, e) == CountEvent(a, e) + CountEvent(b, e)
  {
    if a == [] {
      assert a + b == b;
    } else {
      assert (a + b)[1..] == a[1..] + b;
      CountEventConcat(a[1..], b, e);
    }
  }

  lemma {:induction false} WithoutOne(a: seq<Event>, e: Event, b: seq<Event>, x: Event)
    ensures CountEvent(a + b, x) + (if x == e then 1 else 0) == CountEvent(a + ([e] + b), x)
  {
    CountEventConcat(a, b, x);
    CountEventConcat(a, [e] + b, x);
    assert ([e] + b)[1..] == b;
  }

  lemma {:induction false} EventsRemoveOne(events: seq<Event>, e: Event) returns (i: nat)
    requires e in events
    ensures i < |events| && events[i] == e
    ensures forall x ::
              CountEvent(events[..i] + events[i + 1..], x) + (if x == e then 1 else 0) == CountEvent(events, x)
  {
    i :| 0 <= i < |events| && events[i] == e;
    var a, b := events[..i], events[i + 1..];
    assert events == a + ([e] + b);
    forall x ensures CountEvent(a + b, x) + (if x == e then 1 else 0) == CountEvent(events, x) {
      WithoutOne(a, e, b, x);
    }
  }

  lemma {:induction false} FewerIsShorter(small: seq<Event>, large: seq<Event>)
    requires CountsWithin(small, large)
    ensures |small| <= |large|
  {
    if small != [] {
      var e := small[0];
      CountEventIffIn(small, e);
      CountEventIffIn(large, e);
      assert CountEvent(small, e) <= CountEvent(large, e);
      var i := EventsRemoveOne(large, e);
      var rest := large[..i] + large[i + 1..];
      forall x ensures CountEvent(small[1..], x) <= CountEvent(rest, x) {
        assert CountEvent(small, x) <= CountEvent(large, x);
      }
      FewerIsShorter(small[1..], rest);
    }
  }

  /** What was read holds no fresh event more often than it was sent. */
  ghost predicate ReadWithin(replayed: nat, read: seq<Item>, sent: seq<Item>) {
    forall e: Event | e.sequence > replayed :: Count(read, Published(e)) <= Count(sent, Published(e))
  }

  ghost predicate AllRead(events: seq<Event>, read: seq<Item>) { forall e | e in events :: Published(e) in read }

  lemma {:induction false} InOrderShowsAll(replayed: nat, read: seq<Item>, sent: seq<Item>)
    requires ReadWithin(replayed, read, sent)
    requires Rises(replayed, EventsOf(sent)) && AllRead(EventsOf(sent), read) && ArrivesInOrder(replayed, read)
    ensures Shown(replayed, read) == EventsOf(sent)
  {
    LoopShowsAllIffInOrder(replayed, read);
    ShownIsRead(replayed, read);
    FreshAbove(replayed, read);
    forall e ensures e in Fresh(replayed, read) <==> e in EventsOf(sent) {
      CountIffIn(read, Published(e));
      EventsCount(sent, e);
      CountEventIffIn(EventsOf(sent), e);
      if e in EventsOf(sent) {
        assert e.sequence > replayed;
      }
    }
    RisesUnique(replayed, Shown(replayed, read), EventsOf(sent));
  }

  lemma {:induction false} FreshIsWithin(replayed: nat, read: seq<Item>, sent: seq<Item>)
    requires ReadWithin(replayed, read, sent)
    ensures |Fresh(replayed, read)| <= |EventsOf(sent)|
  {
    FreshAbove(replayed, read);
    forall e ensures CountEvent(Fresh(replayed, read), e) <= CountEvent(EventsOf(sent), e) {
      CountEventIffIn(Fresh(replayed, read), e);
      EventsCount(sent, e);
      if e.sequence > replayed {
        FreshCounts(replayed, read, e);
      }
    }
    FewerIsShorter(Fresh(replayed, read), EventsOf(sent));
  }

  lemma {:induction false} ShowingAllIsInOrder(replayed: nat, read: seq<Item>, sent: seq<Item>)
    requires ReadWithin(replayed, read, sent) && Shown(replayed, read) == EventsOf(sent)
    ensures Rises(replayed, EventsOf(sent)) && AllRead(EventsOf(sent), read) && ArrivesInOrder(replayed, read)
  {
    ShownIsRead(replayed, read);
    FreshIsWithin(replayed, read, sent);
    ShownIsShort(replayed, replayed, read);
    AsMuchIsAll(replayed, replayed, read);
    LoopShowsAllIffInOrder(replayed, read);
  }

  /**
   The loop shows exactly what was sent since the replay when the numbering went on, everything arrived, and it
   arrived in order and before the sentinel; and only then.
   */
  lemma {:induction false} LoopIsWholeIff(replayed: nat, read: seq<Item>, sent: seq<Item>)
    requires ReadWithin(replayed, read, sent)
    ensures Shown(replayed, read) == EventsOf(sent) <==>
              Rises(replayed, EventsOf(sent)) && AllRead(EventsOf(sent), read) && ArrivesInOrder(replayed, read)
    ensures |Shown(replayed, read)| <= |EventsOf(sent)|
  {
    if Rises(replayed, EventsOf(sent)) && AllRead(EventsOf(sent), read) && ArrivesInOrder(replayed, read) {
      InOrderShowsAll(replayed, read, sent);
    }
    if Shown(replayed, read) == EventsOf(sent) {
      ShowingAllIsInOrder(replayed, read, sent);
    }
    FreshIsWithin(replayed, read, sent);
    ShownIsShort(replayed, replayed, read);
  }

  // --- a visit ----------------------------------------------------------------

  /**
   One connection to the live stream, by the moments that matter: it has just subscribed, it has read the history,
   it has asked whether the run is finished, and its loop has ended. Anything may happen in between.
   */
  datatype Visit = Visit(who: SubscriberId, rid: RunId,
                         joined: Net, toReplay: seq<Action>, replayed: Net, toCheck: seq<Action>, checked: Net,
                         toEnd: seq<Action>, ended: Net)

  /** The subscriber's own reads and its leaving are not among the steps. */
  predicate Spares(steps: seq<Action>, who: SubscriberId, reading: bool) {
    forall i | 0 <= i < |steps| :: steps[i] != Unsubscribe(who) && (reading || steps[i] != Consume(who))
  }

  ghost predicate IsVisit(v: Visit) {
    && Inv(v.joined) && NumbersFit(v.joined)
    && v.who in v.joined.boxes
    && v.joined.boxes[v.who] == Mailbox(v.rid, |Outbox(v.joined, v.rid)|, None, [], [], [], [])
    && Leads(v.joined, v.toReplay, v.replayed) && Spares(v.toReplay, v.who, false)
    && Leads(v.replayed, v.toCheck, v.checked) && Spares(v.toCheck, v.who, false)
    && Leads(v.checked, v.toEnd, v.ended) && Spares(v.toEnd, v.who, true)
  }

  /** The run that was claimed is still the one whose history is replayed. */
  predicate Steady(v: Visit) {
    && v.rid in v.replayed.bus.runs && Birth(v.replayed, v.rid) == Birth(v.joined, v.rid)
    && Birth(v.joined, v.rid) <= |Outbox(v.joined, v.rid)|
  }

  /** What the run had published when it was replayed. */
  function Earlier(v: Visit): seq<Event> { Present(v.replayed, v.rid) }

  /** What was sent on the run id from the replay to the end of the loop. */
  function Sent(v: Visit): seq<Item> {
    var from, all := |Outbox(v.replayed, v.rid)|, Outbox(v.ended, v.rid);
    if from <= |all| then all[from..] else []
  }

  /** What was sent from the subscription to the replay. */
  function Prior(v: Visit): seq<Item> {
    var from, all := |Outbox(v.joined, v.rid)|, Outbox(v.replayed, v.rid);
    if from <= |all| then all[from..] else []
  }

  function Later(v: Visit): seq<Event> { EventsOf(Sent(v)) }

  function Replayed(v: Visit): nat { LastNumber(History(v.replayed.bus, v.rid)) }

  function Read(v: Visit): seq<Item> { if v.who in v.ended.boxes then v.ended.boxes[v.who].consumed else [] }

  /** Everything the browser is sent. */
  function Streamed(v: Visit): seq<Event> {
    History(v.replayed.bus, v.rid)
    + if IsFinished(v.checked.bus, v.rid) then [] else Shown(Replayed(v), Read(v))
  }

  /** Every event of the run, from its first to the last published before the loop ended, once and in order. */
  predicate Whole(v: Visit) { Streamed(v) == Earlier(v) + Later(v) }

  lemma {:induction false} StaysOpen(n: Net, steps: seq<Action>, m: Net, who: SubscriberId, reading: bool)
    requires Leads(n, steps, m) && Spares(steps, who, reading)
    requires who in n.boxes && n.boxes[who].until.None?
    ensures who in m.boxes && m.boxes[who].until.None?
    ensures m.boxes[who].rid == n.boxes[who].rid && m.boxes[who].since == n.boxes[who].since
    decreases |steps|
  {
    if steps != [] {
      var a, next := steps[0], Do(n, steps[0]);
      StepExtends(n, a);
      assert next.boxes[who].until.None?;
      assert forall i | 0 <= i < |steps[1..]| :: steps[1..][i] == steps[i + 1];
      StaysOpen(next, steps[1..], m, who, reading);
    }
  }

  /** The moments of a visit, each with the invariants, and the outbox only growing. */
  ghost predicate Sound(v: Visit) {
    && Inv(v.joined) && Inv(v.replayed) && Inv(v.checked) && Inv(v.ended)
    && NumbersFit(v.replayed) && NumbersFit(v.ended)
    && Outbox(v.joined, v.rid) <= Outbox(v.replayed, v.rid) <= Outbox(v.ended, v.rid)
    && v.who in v.ended.boxes && v.ended.boxes[v.who].until.None?
    && v.ended.boxes[v.who].rid == v.rid && v.ended.boxes[v.who].since == |Outbox(v.joined, v.rid)|
  }

  lemma {:induction false} VisitIsSound(v: Visit)
    requires IsVisit(v)
    ensures Sound(v)
  {
    RunKeepsInv(v.joined, v.toReplay, v.replayed);
    RunKeepsInv(v.replayed, v.toCheck, v.checked);
    RunKeepsInv(v.checked, v.toEnd, v.ended);
    RunKeepsNumbers(v.joined, v.toReplay, v.replayed);
    RunKeepsNumbers(v.replayed, v.toCheck, v.checked);
    RunKeepsNumbers(v.checked, v.toEnd, v.ended);
    RunExtends(v.joined, v.toReplay, v.replayed);
    RunExtends(v.replayed, v.toCheck, v.checked);
    RunExtends(v.checked, v.toEnd, v.ended);
    StaysOpen(v.joined, v.toReplay, v.replayed, v.who, false);
    StaysOpen(v.replayed, v.toCheck, v.checked, v.who, false);
    StaysOpen(v.checked, v.toEnd, v.ended, v.who, true);
    OutboxGrows(v);
  }

  lemma {:induction false} OutboxGrows(v: Visit)
    requires Extends(v.joined, v.replayed) && Extends(v.replayed, v.checked) && Extends(v.checked, v.ended)
    ensures Outbox(v.joined, v.rid) <= Outbox(v.replayed, v.rid) <= Outbox(v.ended, v.rid)
  {
    assert Outbox(v.replayed, v.rid) <= Outbox(v.checked, v.rid) <= Outbox(v.ended, v.rid);
  }

  /** The replay shows the last 600 of what there was, and ends on the highest number. */
  lemma {:induction false} ReplayIsTheLatest(v: Visit)
    requires Sound(v) && Steady(v)
    ensures History(v.replayed.bus, v.rid) == Last(Earlier(v), EVENTS_PER_RUN)
    ensures forall e | e in Earlier(v) :: e.sequence <= Replayed(v)
  {
    assert Fits(v.replayed, v.rid) && NumbersFitAt(v.replayed, v.rid);
    LastIsHighest(Earlier(v));
  }

  lemma {:induction false} LastIsHighest(events: seq<Event>)
    requires Rises(0, events)
    ensures forall e | e in events :: e.sequence <= LastNumber(Last(events, EVENTS_PER_RUN))
  {
    if events != [] {
      var last := Last(events, EVENTS_PER_RUN);
      assert last[|last| - 1] == events[|events| - 1];
    }
  }

  lemma {:induction false} EventsOfMembers(items: seq<Item>)
    ensures forall e :: e in EventsOf(items) <==> Published(e) in items
  {
    forall e ensures e in EventsOf(items) <==> Published(e) in items {
      EventsCount(items, e);
      CountEventIffIn(EventsOf(items), e);
      CountIffIn(items, Published(e));
    }
  }

  lemma {:induction false} CountConcat(a: seq<Item>, b: seq<Item>, x: Item)
    ensures Count(a + b, x) == Count(a, x) + Count(b, x)
    decreases |b|
  {
    if b == [] {
      assert a + b == a;
    } else {
      assert (a + b)[..|a + b| - 1] == a + b[..|b| - 1];
      CountConcat(a, b[..|b| - 1], x);
    }
  }

  lemma {:induction false} TailWithin(items: seq<Item>, birth: nat, since: nat)
    requires birth <= since <= |items|
    ensures forall x | x in items[since..] :: x in items[birth..]
  {
    assert items[birth..][since - birth..] == items[since..];
  }

  /** Old items the subscriber is owed are no news to the loop. */
  lemma {:induction false} OldIsNotFresh(v: Visit, e: Event)
    requires Sound(v) && Steady(v) && e.sequence > Replayed(v)
    ensures Count(Prior(v), Published(e)) == 0
  {
    var out, birth, since := Outbox(v.replayed, v.rid), Birth(v.replayed, v.rid), |Outbox(v.joined, v.rid)|;
    ReplayIsTheLatest(v);
    EventsOfMembers(out[birth..]);
    TailWithin(out, birth, since);
    CountIffIn(out[since..], Published(e));
  }

  lemma {:induction false} OwedIsOldAndSent(v: Visit)
    requires Sound(v)
    ensures Owed(v.ended, v.who) == Prior(v) + Sent(v)
  {
    var all, out, since := Outbox(v.ended, v.rid), Outbox(v.replayed, v.rid), |Outbox(v.joined, v.rid)|;
    assert all == out + all[|out|..];
    assert Owed(v.ended, v.who) == all[since..];
  }

  lemma {:induction false} ReadIsWithinSent(v: Visit)
    requires Sound(v) && Steady(v)
    ensures ReadWithin(Replayed(v), Read(v), Sent(v))
  {
    OwedIsOldAndSent(v);
    forall e: Event | e.sequence > Replayed(v) ensures Count(Read(v), Published(e)) <= Count(Sent(v), Published(e)) {
      OldIsNotFresh(v, e);
      CountConcat(Prior(v), Sent(v), Published(e));
      assert InOnePlace(v.ended, v.who, Published(e));
    }
  }

  lemma {:induction false} SplitAlike(h: seq<Event>, l: seq<Event>, a: seq<Event>, b: seq<Event>)
    requires |h| <= |a| && |l| <= |b|
    ensures h + l == a + b <==> h == a && l == b
  {
    if h + l == a + b {
      assert |h| == |a|;
      assert (h + l)[..|h|] == h && (a + b)[..|a|] == a;
      assert (h + l)[|h|..] == l && (a + b)[|a|..] == b;
    }
  }

  lemma {:induction false} LastIsAll<T>(xs: seq<T>, n: nat)
    ensures |Last(xs, n)| <= |xs|
    ensures Last(xs, n) == xs <==> |xs| <= n
  {
  }

  /** What the loop needs: the numbering goes on, everything sent is read, in order and before the sentinel. */
  ghost predicate LoopDelivers(v: Visit) {
    Rises(Replayed(v), Later(v)) && AllRead(Later(v), Read(v)) && ArrivesInOrder(Replayed(v), Read(v))
  }

  /** The replay must have lost nothing, and the loop must show exactly what was sent since. */
  lemma {:induction false} WholeIffLooped(v: Visit)
    requires IsVisit(v) && Steady(v)
    ensures Whole(v) <==>
              && |Earlier(v)| <= EVENTS_PER_RUN
              && Later(v) == if IsFinished(v.checked.bus, v.rid) then [] else Shown(Replayed(v), Read(v))
  {
    VisitIsSound(v);
    ReplayIsTheLatest(v);
    ReadIsWithinSent(v);
    LoopIsWholeIff(Replayed(v), Read(v), Sent(v));
    var looped := if IsFinished(v.checked.bus, v.rid) then [] else Shown(Replayed(v), Read(v));
    LastIsAll(Earlier(v), EVENTS_PER_RUN);
    SplitAlike(History(v.replayed.bus, v.rid), looped, Earlier(v), Later(v));
  }

  /**
   The browser is sent every event of the run exactly when the bounded buffer had lost none before the replay, and
   either the run was finished at the check and nothing was published since the replay, or the loop delivers.
   */
  lemma {:induction false} WholeIff(v: Visit)
    requires IsVisit(v) && Steady(v)
    ensures Whole(v) <==>
              && |Earlier(v)| <= EVENTS_PER_RUN
              && if IsFinished(v.checked.bus, v.rid) then Later(v) == [] else LoopDelivers(v)
  {
    WholeIffLooped(v);
    VisitIsSound(v);
    ReadIsWithinSent(v);
    LoopIsWholeIff(Replayed(v), Read(v), Sent(v));
  }
}
