/**
 Publish, subscribe and deliver as an interleaving: the locked sections are single steps, and every
 hand-over outside the lock is a step of its own that any thread may take at any time.
 */
module Delivery {
  import opened Options
  import opened Sanitiser
  import opened StringOrder
  import opened BusModel

  /** `maxsize` of a subscriber's queue. */
  const QUEUE_SIZE: nat := 2048

  /** What is delivered: an event, or the `None` that `close_run` sends. */
  datatype Item = Published(event: Event) | Sentinel

  /** A publisher thread part-way through its `for loop, queue in subscribers` loop. */
  datatype Task = Task(item: Item, remaining: seq<SubscriberId>)

  /**
   One subscription: its run, the part of that run's outbox it was registered for, and where the items
   handed to it are. `scheduled` is its loop's callback queue; `dropped` is what a gone loop or a full
   queue lost.
   */
  datatype Mailbox = Mailbox(rid: RunId, since: nat, until: Option<nat>,
                             scheduled: seq<Item>, queued: seq<Item>, consumed: seq<Item>, dropped: seq<Item>)

  /**
   The whole system. `outbox` is everything ever published or closed on a run id, in lock order, and
   `birth` where in it the present run begins: both are there to be talked about, and no step reads them.
   */
  datatype Net = Net(bus: Bus, tasks: seq<Task>, boxes: map<SubscriberId, Mailbox>,
                     outbox: map<RunId, seq<Item>>, birth: map<RunId, nat>)

  datatype Action =
    | OpenRun(rid: RunId, now: real)
    | Publish(rid: RunId, created: real, now: real, draft: Draft)
    | CloseRun(rid: RunId)
    | Subscribe(rid: RunId, who: SubscriberId)
    | Unsubscribe(who: SubscriberId)
    | Deliver(task: nat, reachable: bool)
    | RunCallback(who: SubscriberId)
    | Consume(who: SubscriberId)

  function Start(capacity: nat): Net { Net(Bus(capacity, [], map[], map[]), [], map[], map[], map[]) }

  function Outbox(n: Net, rid: RunId): seq<Item> { if rid in n.outbox then n.outbox[rid] else [] }

  function Birth(n: Net, rid: RunId): nat { if rid in n.birth then n.birth[rid] else 0 }

  predicate Enabled(n: Net, a: Action) {
    match a
    case Subscribe(_, who) => who !in n.boxes
    case Unsubscribe(who) => who in n.boxes && n.boxes[who].until.None?
    case Deliver(i, _) => i < |n.tasks| && n.tasks[i].remaining != [] && n.tasks[i].remaining[0] in n.boxes
    case RunCallback(who) => who in n.boxes && n.boxes[who].scheduled != []
    case Consume(who) => who in n.boxes && n.boxes[who].queued != []
    case _ => true
  }

  /** Put an item in a run's outbox, and start delivering it to the subscribers of that moment. */
  function Send(n: Net, rid: RunId, item: Item): Net {
    n.(outbox := n.outbox[rid := Outbox(n, rid) + [item]],
       tasks := n.tasks + [Task(item, Subscribers(n.bus, rid))])
  }

  /** Make sure the run is there; a run that was not begins at the end of the outbox so far. */
  function Born(n: Net, rid: RunId): map<RunId, nat> {
    if rid in n.bus.runs then n.birth else n.birth[rid := |Outbox(n, rid)|]
  }

  /** The event a publish builds: numbered after whatever the run has recorded. */
  function NextEvent(n: Net, rid: RunId, created: real, now: real, draft: Draft): Event
    requires Constructible(draft)
  {
    var run := RunFor(n.bus, rid, created);
    MakeEvent(rid, run.sequence + 1, run.started, now, draft)
  }

  function Do(n: Net, a: Action): Net
    requires Enabled(n, a)
  {
    match a
    case OpenRun(rid, now) => n.(bus := Ensure(n.bus, rid, now), birth := Born(n, rid))
    case Publish(rid, created, now, draft) =>
      var recorded := n.(bus := PublishOn(n.bus, rid, created, now, draft), birth := Born(n, rid));
      if Constructible(draft) then Send(recorded, rid, Published(NextEvent(n, rid, created, now, draft)))
      else recorded
    case CloseRun(rid) => Send(n.(bus := Close(n.bus, rid)), rid, Sentinel)
    case Subscribe(rid, who) =>
      n.(bus := Enter(n.bus, rid, who),
         boxes := n.boxes[who := Mailbox(rid, |Outbox(n, rid)|, None, [], [], [], [])])
    case Unsubscribe(who) =>
      var box := n.boxes[who];
      n.(bus := Leave(n.bus, box.rid, who),
         boxes := n.boxes[who := box.(until := Some(|Outbox(n, box.rid)|))])
    case Deliver(i, reachable) =>
      var t := n.tasks[i];
      var who := t.remaining[0];
      var box := n.boxes[who];
      n.(tasks := n.tasks[i := t.(remaining := t.remaining[1..])],
         boxes := n.boxes[who := if reachable then box.(scheduled := box.scheduled + [t.item])
                                 else box.(dropped := box.dropped + [t.item])])
    case RunCallback(who) =>
      var box := n.boxes[who];
      var item, rest := box.scheduled[0], box.scheduled[1..];
      n.(boxes := n.boxes[who := if |box.queued| < QUEUE_SIZE
                                 then box.(scheduled := rest, queued := box.queued + [item])
                                 else box.(scheduled := rest, dropped := box.dropped + [item])])
    case Consume(who) =>
      var box := n.boxes[who];
      n.(boxes := n.boxes[who := box.(queued := box.queued[1..], consumed := box.consumed + [box.queued[0]])])
  }

  /** `n'` is reached from `n` by some interleaving of enabled steps. */
  ghost predicate Leads(n: Net, steps: seq<Action>, n': Net)
    decreases |steps|
  {
    if steps == [] then n == n' else Enabled(n, steps[0]) && Leads(Do(n, steps[0]), steps[1..], n')
  }

  // --- following steps --------------------------------------------------------

  lemma {:induction false} LeadsOne(n: Net, a: Action)
    requires Enabled(n, a)
    ensures Leads(n, [a], Do(n, a))
  {
    assert [a][1..] == [];
  }

  lemma {:induction false} LeadsThen(n: Net, first: seq<Action>, m: Net, second: seq<Action>, k: Net)
    requires Leads(n, first, m) && Leads(m, second, k)
    ensures Leads(n, first + second, k)
    decreases |first|
  {
    if first == [] {
      assert first + second == second;
    } else {
      assert (first + second)[1..] == first[1..] + second;
      LeadsThen(Do(n, first[0]), first[1..], m, second, k);
    }
  }

  // --- what every reachable net keeps -----------------------------------------

  /** The items a subscription was registered for. */
  function Owed(n: Net, who: SubscriberId): seq<Item>
    requires who in n.boxes
  {
    var box := n.boxes[who];
    var out := Outbox(n, box.rid);
    var end := if box.until.Some? then box.until.value else |out|;
    if box.since <= end <= |out| then out[box.since..end] else []
  }

  function Count(items: seq<Item>, x: Item): nat {
    if items == [] then 0 else Count(items[..|items| - 1], x) + if items[|items| - 1] == x then 1 else 0
  }

  function Share(t: Task, who: SubscriberId, x: Item): nat {
    if who in t.remaining && t.item == x then 1 else 0
  }

  /** How often an item is still in some publisher's hands for this subscriber. */
  function InFlight(tasks: seq<Task>, who: SubscriberId, x: Item): nat {
    if tasks == [] then 0
    else InFlight(tasks[..|tasks| - 1], who, x) + Share(tasks[|tasks| - 1], who, x)
  }

  function Holding(box: Mailbox, x: Item): nat {
    Count(box.scheduled, x) + Count(box.queued, x) + Count(box.consumed, x) + Count(box.dropped, x)
  }

  /** Registered in the bus and open in the mailbox map are the same thing. */
  ghost predicate Registered(n: Net) {
    && (forall rid, who | who in Subscribers(n.bus, rid) ::
          who in n.boxes && n.boxes[who].rid == rid && n.boxes[who].until.None?)
    && (forall who | who in n.boxes && n.boxes[who].until.None? :: who in Subscribers(n.bus, n.boxes[who].rid))
    && (forall rid :: Distinct(Subscribers(n.bus, rid)))
  }

  ghost predicate WindowsFit(n: Net) {
    forall who | who in n.boxes ::
      var box := n.boxes[who];
      box.since <= (if box.until.Some? then box.until.value else |Outbox(n, box.rid)|) <= |Outbox(n, box.rid)|
  }

  ghost predicate TasksFit(n: Net) {
    forall i | 0 <= i < |n.tasks| ::
      Distinct(n.tasks[i].remaining) && forall who | who in n.tasks[i].remaining :: who in n.boxes
  }

  /** Every item owed is in exactly one place. */
  ghost predicate Conserved(n: Net) {
    forall who, x | who in n.boxes :: InOnePlace(n, who, x)
  }

  ghost predicate InOnePlace(n: Net, who: SubscriberId, x: Item)
    requires who in n.boxes
  {
    Count(Owed(n, who), x) == InFlight(n.tasks, who, x) + Holding(n.boxes[who], x)
  }

  function EventsOf(items: seq<Item>): seq<Event> {
    if items == [] then []
    else
      EventsOf(items[..|items| - 1])
      + if items[|items| - 1].Published? then [items[|items| - 1].event] else []
  }

  /** The present run holds the tail of what was published since it began, and is open until closed. */
  ghost predicate RunsFit(n: Net) { forall rid :: Fits(n, rid) }

  ghost predicate Fits(n: Net, rid: RunId) {
    && Birth(n, rid) <= |Outbox(n, rid)|
    && (rid in n.bus.runs ==> HoldsTail(n.bus.runs[rid], Outbox(n, rid)[Birth(n, rid)..]))
  }

  ghost predicate HoldsTail(run: Run, since: seq<Item>) {
    && run.events == Last(EventsOf(since), EVENTS_PER_RUN)
    && (Sentinel in since ==> run.finished)
  }

  ghost predicate Inv(n: Net) {
    Consistent(n.bus) && Delivering(n) && RunsFit(n)
  }

  // --- each invariant, step by step -------------------------------------------

  lemma StartIsFine(capacity: nat)
    ensures Inv(Start(capacity))
  {
  }

  lemma {:induction false} StepConsistent(n: Net, a: Action)
    requires Enabled(n, a) && Consistent(n.bus)
    ensures Consistent(Do(n, a).bus)
  {
    match a
    case OpenRun(rid, now) => EnsureKeepsConsistent(n.bus, rid, now);
    case Publish(rid, created, now, draft) => PublishKeepsConsistent(n.bus, rid, created, now, draft);
    case _ =>
  }

  lemma {:induction false} WithoutDistinct(xs: seq<SubscriberId>, s: SubscriberId)
    requires Distinct(xs)
    ensures Distinct(Without(xs, s))
    ensures forall x :: x in Without(xs, s) <==> x in xs && x != s
  {
    if xs != [] {
      assert xs == [xs[0]] + xs[1..];
      if xs[0] == s {
        assert s !in xs[1..];
      } else {
        WithoutDistinct(xs[1..], s);
        assert xs[0] !in xs[1..];
      }
    }
  }

  /** The delivery half of the invariant; it reads the bus only for its subscriber lists. */
  ghost predicate Delivering(n: Net) {
    Registered(n) && WindowsFit(n) && TasksFit(n) && Conserved(n)
  }

  /** Same subscribers, same windows, same outboxes. */
  ghost predicate SameShape(n: Net, m: Net) {
    && m.bus.subscribers == n.bus.subscribers && m.outbox == n.outbox && m.boxes.Keys == n.boxes.Keys
    && forall w | w in n.boxes ::
         && m.boxes[w].rid == n.boxes[w].rid && m.boxes[w].since == n.boxes[w].since
         && m.boxes[w].until == n.boxes[w].until
  }

  lemma {:induction false} ShapeKeepsRegistered(n: Net, m: Net)
    requires SameShape(n, m) && Registered(n)
    ensures Registered(m)
  {
    assert forall r :: Subscribers(m.bus, r) == Subscribers(n.bus, r);
  }

  lemma {:induction false} ShapeKeepsWindows(n: Net, m: Net)
    requires SameShape(n, m) && WindowsFit(n)
    ensures WindowsFit(m)
  {
    assert forall r :: Outbox(m, r) == Outbox(n, r);
  }

  lemma ShapeKeepsOwed(n: Net, m: Net, who: SubscriberId)
    requires SameShape(n, m) && who in n.boxes
    ensures Owed(m, who) == Owed(n, who)
  {
  }

  /** New runs, or new contents of runs, do not touch delivery. */
  lemma {:induction false} RunsDoNotMatter(n: Net, bus: Bus, birth: map<RunId, nat>)
    requires Delivering(n) && bus.subscribers == n.bus.subscribers
    ensures Delivering(n.(bus := bus, birth := birth))
  {
    var m := n.(bus := bus, birth := birth);
    ShapeKeepsRegistered(n, m);
    ShapeKeepsWindows(n, m);
    forall who, x | who in m.boxes ensures InOnePlace(m, who, x) {
      ShapeKeepsOwed(n, m, who);
      assert InOnePlace(n, who, x);
    }
  }

  lemma {:induction false} CountAppend(items: seq<Item>, y: Item, x: Item)
    ensures Count(items + [y], x) == Count(items, x) + if y == x then 1 else 0
  {
    assert (items + [y])[..|items|] == items;
  }

  lemma {:induction false} CountTail(items: seq<Item>, x: Item)
    requires items != []
    ensures Count(items, x) == Count(items[1..], x) + if items[0] == x then 1 else 0
    decreases |items|
  {
    var last := |items| - 1;
    if last == 0 {
      assert items[..0] == [] && items[1..] == [];
    } else {
      CountTail(items[..last], x);
      assert items[..last][1..] == items[1..][..last - 1];
    }
  }

  lemma {:induction false} InFlightAppend(tasks: seq<Task>, t: Task, who: SubscriberId, x: Item)
    ensures InFlight(tasks + [t], who, x) == InFlight(tasks, who, x) + Share(t, who, x)
  {
    assert (tasks + [t])[..|tasks|] == tasks;
  }

  lemma {:induction false} InFlightUpdate(tasks: seq<Task>, i: nat, t: Task, who: SubscriberId, x: Item)
    requires i < |tasks|
    ensures InFlight(tasks[i := t], who, x) + Share(tasks[i], who, x) == InFlight(tasks, who, x) + Share(t, who, x)
  {
    var last := |tasks| - 1;
    var rest := tasks[..last];
    if i == last {
      assert tasks[i := t] == rest + [t];
      InFlightAppend(rest, t, who, x);
    } else {
      assert tasks[i := t] == rest[i := t] + [tasks[last]];
      InFlightAppend(rest[i := t], tasks[last], who, x);
      InFlightUpdate(rest, i, t, who, x);
    }
  }

  lemma {:induction false} NobodyYet(tasks: seq<Task>, who: SubscriberId, x: Item)
    requires forall i | 0 <= i < |tasks| :: who !in tasks[i].remaining
    ensures InFlight(tasks, who, x) == 0
  {
    if tasks != [] {
      NobodyYet(tasks[..|tasks| - 1], who, x);
    }
  }

  /** What one send adds to a window of the outbox. */
  lemma {:induction false} SendExtendsWindow(n: Net, rid: RunId, item: Item, who: SubscriberId)
    requires WindowsFit(n) && who in n.boxes
    ensures Owed(Send(n, rid, item), who)
         == Owed(n, who) + if n.boxes[who].rid == rid && n.boxes[who].until.None? then [item] else []
  {
    var box := n.boxes[who];
    var out := Outbox(n, box.rid);
    if box.rid == rid {
      var end := if box.until.Some? then box.until.value else |out|;
      assert (out + [item])[box.since..end] == out[box.since..end];
      if box.until.None? {
        assert (out + [item])[box.since..|out| + 1] == out[box.since..|out|] + [item];
      }
    }
  }

  lemma {:induction false} RegisteredIff(n: Net, rid: RunId, who: SubscriberId)
    requires Registered(n) && who in n.boxes
    ensures who in Subscribers(n.bus, rid) <==> n.boxes[who].rid == rid && n.boxes[who].until.None?
  {
  }

  lemma {:induction false} AppendedTo(owed: seq<Item>, item: Item, added: bool, x: Item)
    ensures Count(owed + if added then [item] else [], x) == Count(owed, x) + if added && item == x then 1 else 0
  {
    if added {
      CountAppend(owed, item, x);
    } else {
      assert owed + [] == owed;
    }
  }

  /** Sending moves an item from nowhere into exactly the registered subscribers' flight. */
  lemma {:induction false} SendConserves(n: Net, rid: RunId, item: Item, who: SubscriberId, x: Item)
    requires Registered(n) && WindowsFit(n) && who in n.boxes && InOnePlace(n, who, x)
    ensures InOnePlace(Send(n, rid, item), who, x)
  {
    var t := Task(item, Subscribers(n.bus, rid));
    var added := n.boxes[who].rid == rid && n.boxes[who].until.None?;
    RegisteredIff(n, rid, who);
    assert Share(t, who, x) == if added && item == x then 1 else 0;
    SendExtendsWindow(n, rid, item, who);
    AppendedTo(Owed(n, who), item, added, x);
    InFlightAppend(n.tasks, t, who, x);
  }

  lemma {:induction false} SendFits(n: Net, rid: RunId, item: Item)
    requires Registered(n) && TasksFit(n)
    ensures TasksFit(Send(n, rid, item))
  {
    var m := Send(n, rid, item);
    var t := Task(item, Subscribers(n.bus, rid));
    forall i | 0 <= i < |m.tasks|
      ensures Distinct(m.tasks[i].remaining) && forall who | who in m.tasks[i].remaining :: who in m.boxes
    {
      if i < |n.tasks| {
        assert m.tasks[i] == n.tasks[i];
      } else {
        assert m.tasks[i] == t;
      }
    }
  }

  lemma {:induction false} SendDelivers(n: Net, rid: RunId, item: Item)
    requires Delivering(n)
    ensures Delivering(Send(n, rid, item))
  {
    var m := Send(n, rid, item);
    SendFits(n, rid, item);
    assert forall r :: Outbox(n, r) <= Outbox(m, r);
    forall who, x | who in m.boxes ensures InOnePlace(m, who, x) {
      assert InOnePlace(n, who, x);
      SendConserves(n, rid, item, who, x);
    }
  }

  /** Taking the first of one queue to the end of another loses nothing. */
  lemma {:induction false} HeadMoved(from: seq<Item>, to: seq<Item>, x: Item)
    requires from != []
    ensures Count(from[1..], x) + Count(to + [from[0]], x) == Count(from, x) + Count(to, x)
  {
    CountTail(from, x);
    CountAppend(to, from[0], x);
  }

  ghost predicate SameWindow(a: Mailbox, b: Mailbox) { a.rid == b.rid && a.since == b.since && a.until == b.until }

  ghost predicate Rearranges(n: Net, tasks: seq<Task>, who: SubscriberId, box: Mailbox, w: SubscriberId, x: Item)
    requires w in n.boxes
  {
    InFlight(tasks, w, x) + Holding(if w == who then box else n.boxes[w], x)
      == InFlight(n.tasks, w, x) + Holding(n.boxes[w], x)
  }

  /** Rearranging one mailbox, and possibly the flights, keeps every item in one place. */
  lemma {:induction false} Rearranged(n: Net, tasks: seq<Task>, who: SubscriberId, box: Mailbox)
    requires Delivering(n) && who in n.boxes && SameWindow(box, n.boxes[who])
    requires TasksFit(n.(tasks := tasks))
    requires forall w, x | w in n.boxes :: Rearranges(n, tasks, who, box, w, x)
    ensures Delivering(n.(tasks := tasks, boxes := n.boxes[who := box]))
  {
    var m := n.(tasks := tasks, boxes := n.boxes[who := box]);
    ShapeKeepsRegistered(n, m);
    ShapeKeepsWindows(n, m);
    forall w, x | w in m.boxes ensures InOnePlace(m, w, x) {
      ShapeKeepsOwed(n, m, w);
      assert InOnePlace(n, w, x) && Rearranges(n, tasks, who, box, w, x);
    }
  }

  /** One hand-over takes the item out of one subscriber's flight and nobody else's. */
  lemma {:induction false} HandedOver(tasks: seq<Task>, i: nat, w: SubscriberId, x: Item)
    requires i < |tasks| && Distinct(tasks[i].remaining) && tasks[i].remaining != []
    ensures var t := tasks[i];
            InFlight(tasks, w, x)
              == InFlight(tasks[i := t.(remaining := t.remaining[1..])], w, x)
               + if w == t.remaining[0] && t.item == x then 1 else 0
  {
    var t := tasks[i];
    var rest := t.remaining[1..];
    InFlightUpdate(tasks, i, t.(remaining := rest), w, x);
    assert t.remaining == [t.remaining[0]] + rest;
    assert t.remaining[0] !in rest;
  }

  lemma HandOverFits(n: Net, i: nat)
    requires TasksFit(n) && i < |n.tasks| && n.tasks[i].remaining != []
    ensures TasksFit(n.(tasks := n.tasks[i := n.tasks[i].(remaining := n.tasks[i].remaining[1..])]))
  {
  }

  lemma {:induction false} DeliverDelivers(n: Net, i: nat, reachable: bool)
    requires Enabled(n, Deliver(i, reachable)) && Delivering(n)
    ensures Delivering(Do(n, Deliver(i, reachable)))
  {
    var t := n.tasks[i];
    var who, box := t.remaining[0], n.boxes[t.remaining[0]];
    var tasks := n.tasks[i := t.(remaining := t.remaining[1..])];
    var moved := if reachable then box.(scheduled := box.scheduled + [t.item])
                 else box.(dropped := box.dropped + [t.item]);
    HandOverFits(n, i);
    forall w, x | w in n.boxes ensures Rearranges(n, tasks, who, moved, w, x) {
      HandedOver(n.tasks, i, w, x);
      CountAppend(if reachable then box.scheduled else box.dropped, t.item, x);
    }
    Rearranged(n, tasks, who, moved);
  }

  /** One copy of the item goes from the publisher to the loop's callbacks, or is dropped when the loop is gone. */
  lemma {:induction false} HandOverMovesOne(n: Net, i: nat, reachable: bool, w: SubscriberId, x: Item)
    requires Enabled(n, Deliver(i, reachable)) && TasksFit(n) && w in n.boxes
    ensures var m := Do(n, Deliver(i, reachable));
            var one := if w == n.tasks[i].remaining[0] && x == n.tasks[i].item then 1 else 0;
            && InFlight(m.tasks, w, x) + one == InFlight(n.tasks, w, x)
            && Count(m.boxes[w].scheduled, x) == Count(n.boxes[w].scheduled, x) + (if reachable then one else 0)
            && Count(m.boxes[w].dropped, x) == Count(n.boxes[w].dropped, x) + (if reachable then 0 else one)
            && m.boxes[w].queued == n.boxes[w].queued && m.boxes[w].consumed == n.boxes[w].consumed
  {
    HandedOver(n.tasks, i, w, x);
    CountAppend(n.boxes[w].scheduled, n.tasks[i].item, x);
    CountAppend(n.boxes[w].dropped, n.tasks[i].item, x);
  }

  /** The loop's next callback moves one copy into the queue, or drops it when 2048 are waiting there. */
  lemma {:induction false} CallbackMovesOne(n: Net, w: SubscriberId, x: Item)
    requires Enabled(n, RunCallback(w))
    ensures var m := Do(n, RunCallback(w));
            var one := if x == n.boxes[w].scheduled[0] then 1 else 0;
            var full := |n.boxes[w].queued| >= QUEUE_SIZE;
            && Count(m.boxes[w].scheduled, x) + one == Count(n.boxes[w].scheduled, x)
            && Count(m.boxes[w].queued, x) == Count(n.boxes[w].queued, x) + (if full then 0 else one)
            && Count(m.boxes[w].dropped, x) == Count(n.boxes[w].dropped, x) + (if full then one else 0)
            && m.boxes[w].consumed == n.boxes[w].consumed && m.tasks == n.tasks
  {
    CountTail(n.boxes[w].scheduled, x);
    CountAppend(n.boxes[w].queued, n.boxes[w].scheduled[0], x);
    CountAppend(n.boxes[w].dropped, n.boxes[w].scheduled[0], x);
  }

  lemma {:induction false} ConsumeDelivers(n: Net, who: SubscriberId)
    requires Enabled(n, Consume(who)) && Delivering(n)
    ensures Delivering(Do(n, Consume(who)))
  {
    var box := n.boxes[who];
    var moved := box.(queued := box.queued[1..], consumed := box.consumed + [box.queued[0]]);
    forall w, x | w in n.boxes ensures Rearranges(n, n.tasks, who, moved, w, x) {
      HeadMoved(box.queued, box.consumed, x);
    }
    Rearranged(n, n.tasks, who, moved);
  }

  lemma {:induction false} CallbackDelivers(n: Net, who: SubscriberId)
    requires Enabled(n, RunCallback(who)) && Delivering(n)
    ensures Delivering(Do(n, RunCallback(who)))
  {
    var box := n.boxes[who];
    var item, rest := box.scheduled[0], box.scheduled[1..];
    var moved := if |box.queued| < QUEUE_SIZE then box.(scheduled := rest, queued := box.queued + [item])
                 else box.(scheduled := rest, dropped := box.dropped + [item]);
    forall w, x | w in n.boxes ensures Rearranges(n, n.tasks, who, moved, w, x) {
      HeadMoved(box.scheduled, if |box.queued| < QUEUE_SIZE then box.queued else box.dropped, x);
    }
    Rearranged(n, n.tasks, who, moved);
  }

  lemma {:induction false} SubscribeRegisters(n: Net, rid: RunId, who: SubscriberId)
    requires who !in n.boxes && Registered(n)
    ensures Registered(Do(n, Subscribe(rid, who)))
  {
    var m := Do(n, Subscribe(rid, who));
    assert forall r :: Subscribers(m.bus, r)
                    == if r == rid then Subscribers(n.bus, r) + [who] else Subscribers(n.bus, r);
    assert who !in Subscribers(n.bus, rid);
  }

  lemma {:induction false} SubscribeDelivers(n: Net, rid: RunId, who: SubscriberId)
    requires who !in n.boxes && Delivering(n)
    ensures Delivering(Do(n, Subscribe(rid, who)))
  {
    var m := Do(n, Subscribe(rid, who));
    SubscribeRegisters(n, rid, who);
    assert forall r :: Outbox(m, r) == Outbox(n, r);
    forall w, x | w in m.boxes ensures InOnePlace(m, w, x) {
      if w == who {
        NobodyYet(n.tasks, who, x);
        assert Owed(m, w) == [];
      } else {
        assert InOnePlace(n, w, x) && Owed(m, w) == Owed(n, w);
      }
    }
  }

  lemma {:induction false} UnsubscribeUnregisters(n: Net, who: SubscriberId)
    requires Enabled(n, Unsubscribe(who)) && Registered(n)
    ensures Registered(Do(n, Unsubscribe(who)))
  {
    var m := Do(n, Unsubscribe(who));
    var rid := n.boxes[who].rid;
    WithoutDistinct(Subscribers(n.bus, rid), who);
    assert forall r :: Subscribers(m.bus, r)
                    == if r == rid then Without(Subscribers(n.bus, r), who) else Subscribers(n.bus, r);
  }

  lemma {:induction false} LeavingKeepsPlaces(n: Net, who: SubscriberId, w: SubscriberId, x: Item)
    requires Enabled(n, Unsubscribe(who)) && Delivering(n) && w in n.boxes
    ensures InOnePlace(Do(n, Unsubscribe(who)), w, x)
  {
    assert InOnePlace(n, w, x) && Owed(Do(n, Unsubscribe(who)), w) == Owed(n, w);
  }

  lemma {:induction false} UnsubscribeDelivers(n: Net, who: SubscriberId)
    requires Enabled(n, Unsubscribe(who)) && Delivering(n)
    ensures Delivering(Do(n, Unsubscribe(who)))
  {
    var m := Do(n, Unsubscribe(who));
    UnsubscribeUnregisters(n, who);
    assert forall r :: Outbox(m, r) == Outbox(n, r);
    forall w, x | w in m.boxes ensures InOnePlace(m, w, x) {
      LeavingKeepsPlaces(n, who, w, x);
    }
  }

  lemma {:induction false} StepDelivers(n: Net, a: Action)
    requires Enabled(n, a) && Delivering(n)
    ensures Delivering(Do(n, a))
  {
    match a
    case OpenRun(rid, now) => RunsDoNotMatter(n, Ensure(n.bus, rid, now), Born(n, rid));
    case Publish(rid, created, now, draft) =>
      var bus := PublishOn(n.bus, rid, created, now, draft);
      RunsDoNotMatter(n, bus, Born(n, rid));
      if Constructible(draft) {
        SendDelivers(n.(bus := bus, birth := Born(n, rid)), rid, Published(NextEvent(n, rid, created, now, draft)));
      }
    case CloseRun(rid) =>
      RunsDoNotMatter(n, Close(n.bus, rid), n.birth);
      SendDelivers(n.(bus := Close(n.bus, rid)), rid, Sentinel);
    case Subscribe(rid, who) => SubscribeDelivers(n, rid, who);
    case Unsubscribe(who) => UnsubscribeDelivers(n, who);
    case Deliver(i, reachable) => DeliverDelivers(n, i, reachable);
    case RunCallback(who) => CallbackDelivers(n, who);
    case Consume(who) => ConsumeDelivers(n, who);
  }

  // --- the runs ---------------------------------------------------------------

  lemma {:induction false} EventsOfAppend(items: seq<Item>, item: Item)
    ensures EventsOf(items + [item]) == EventsOf(items) + if item.Published? then [item.event] else []
  {
    assert (items + [item])[..|items|] == items;
  }

  lemma {:induction false} RecordHoldsTail(run: Run, since: seq<Item>, rid: RunId, now: real, draft: Draft)
    requires HoldsTail(run, since)
    ensures Constructible(draft) ==>
              HoldsTail(Record(run, rid, now, draft),
                        since + [Published(MakeEvent(rid, run.sequence + 1, run.started, now, draft))])
    ensures !Constructible(draft) ==> HoldsTail(Record(run, rid, now, draft), since)
  {
    if Constructible(draft) {
      var e := MakeEvent(rid, run.sequence + 1, run.started, now, draft);
      EventsOfAppend(since, Published(e));
      LastOfLast(EventsOf(since), e, EVENTS_PER_RUN);
    }
  }

  lemma {:induction false} CloseHoldsTail(run: Run, since: seq<Item>)
    requires HoldsTail(run, since)
    ensures HoldsTail(run.(finished := true), since + [Sentinel])
  {
    EventsOfAppend(since, Sentinel);
    assert EventsOf(since) + [] == EventsOf(since);
  }

  /** Ensuring and publishing leave every other run as it was, or evict it. */
  lemma RunsAfter(b: Bus, rid: RunId, created: real, now: real, draft: Draft, r: RunId)
    requires Consistent(b)
    ensures r in Ensure(b, rid, created).runs ==>
              Ensure(b, rid, created).runs[r] == if r == rid then RunFor(b, rid, created) else RunFor(b, r, 0.0)
    ensures r in PublishOn(b, rid, created, now, draft).runs ==>
              PublishOn(b, rid, created, now, draft).runs[r]
                == if r == rid then Record(RunFor(b, rid, created), rid, now, draft) else RunFor(b, r, 0.0)
    ensures r != rid ==> (r in Ensure(b, rid, created).runs ==> r in b.runs)
    ensures r != rid ==> (r in PublishOn(b, rid, created, now, draft).runs ==> r in b.runs)
  {
  }

  /** The run a publisher writes to holds the tail of the outbox from where it begins. */
  lemma {:induction false} RunForHoldsTail(n: Net, rid: RunId, created: real)
    requires RunsFit(n)
    ensures var birth := if rid in n.bus.runs then Birth(n, rid) else |Outbox(n, rid)|;
            birth <= |Outbox(n, rid)| && HoldsTail(RunFor(n.bus, rid, created), Outbox(n, rid)[birth..])
  {
    assert Fits(n, rid);
    if rid !in n.bus.runs {
      assert Outbox(n, rid)[|Outbox(n, rid)|..] == [];
    }
  }

  lemma {:induction false} OpenFits(n: Net, rid: RunId, now: real, r: RunId)
    requires Consistent(n.bus) && RunsFit(n)
    ensures Fits(n.(bus := Ensure(n.bus, rid, now), birth := Born(n, rid)), r)
  {
    assert Fits(n, r);
    RunsAfter(n.bus, rid, now, now, Draft("", "", "", "", "", Unmeasured, "", Null), r);
    RunForHoldsTail(n, rid, now);
  }

  /** One run replaced and its outbox extended by one item, seen from that run. */
  lemma {:induction false} ExtendedRunFits(n: Net, rid: RunId, run: Run, item: Item)
    requires Birth(n, rid) <= |Outbox(n, rid)|
    requires HoldsTail(run, Outbox(n, rid)[Birth(n, rid)..] + [item])
    requires rid in n.bus.runs ==> n.bus.runs[rid] == run
    ensures Fits(Send(n, rid, item), rid)
  {
    var out, birth := Outbox(n, rid), Birth(n, rid);
    assert (out + [item])[birth..] == out[birth..] + [item];
  }

  /** The bus and the birth table once a publish has recorded, before anything is sent. */
  function Recorded(n: Net, rid: RunId, created: real, now: real, draft: Draft): Net {
    n.(bus := PublishOn(n.bus, rid, created, now, draft), birth := Born(n, rid))
  }

  lemma {:induction false} RecordedHoldsTail(n: Net, rid: RunId, created: real, now: real, draft: Draft)
    requires RunsFit(n) && Constructible(draft)
    ensures var m := Recorded(n, rid, created, now, draft);
            && Birth(m, rid) <= |Outbox(m, rid)|
            && HoldsTail(Record(RunFor(n.bus, rid, created), rid, now, draft),
                         Outbox(m, rid)[Birth(m, rid)..] + [Published(NextEvent(n, rid, created, now, draft))])
  {
    var m := Recorded(n, rid, created, now, draft);
    RunForHoldsTail(n, rid, created);
    assert Outbox(m, rid) == Outbox(n, rid);
    RecordHoldsTail(RunFor(n.bus, rid, created), Outbox(n, rid)[Birth(m, rid)..], rid, now, draft);
  }

  lemma {:induction false} BuiltRunFits(n: Net, rid: RunId, created: real, now: real, draft: Draft)
    requires Consistent(n.bus) && RunsFit(n) && Constructible(draft)
    ensures Fits(Send(Recorded(n, rid, created, now, draft), rid, Published(NextEvent(n, rid, created, now, draft))),
                 rid)
  {
    var m := Recorded(n, rid, created, now, draft);
    RunsAfter(n.bus, rid, created, now, draft, rid);
    RecordedHoldsTail(n, rid, created, now, draft);
    ExtendedRunFits(m, rid, Record(RunFor(n.bus, rid, created), rid, now, draft),
                    Published(NextEvent(n, rid, created, now, draft)));
  }

  lemma {:induction false} FailedRunFits(n: Net, rid: RunId, created: real, now: real, draft: Draft)
    requires Consistent(n.bus) && RunsFit(n) && !Constructible(draft)
    ensures Fits(Recorded(n, rid, created, now, draft), rid)
  {
    RunsAfter(n.bus, rid, created, now, draft, rid);
    RunForHoldsTail(n, rid, created);
  }

  lemma {:induction false} OtherRunFits(n: Net, rid: RunId, created: real, now: real, draft: Draft, item: Item,
                                        r: RunId)
    requires Consistent(n.bus) && RunsFit(n) && r != rid
    ensures var recorded := n.(bus := PublishOn(n.bus, rid, created, now, draft), birth := Born(n, rid));
            Fits(recorded, r) && Fits(Send(recorded, rid, item), r)
  {
    assert Fits(n, r);
    RunsAfter(n.bus, rid, created, now, draft, r);
  }

  lemma {:induction false} PublishFits(n: Net, rid: RunId, created: real, now: real, draft: Draft, r: RunId)
    requires Consistent(n.bus) && RunsFit(n)
    ensures Fits(Do(n, Publish(rid, created, now, draft)), r)
  {
    var item := if Constructible(draft) then Published(NextEvent(n, rid, created, now, draft)) else Sentinel;
    if r == rid {
      if Constructible(draft) {
        BuiltRunFits(n, rid, created, now, draft);
      } else {
        FailedRunFits(n, rid, created, now, draft);
      }
    } else {
      OtherRunFits(n, rid, created, now, draft, item, r);
    }
  }

  lemma {:induction false} CloseFits(n: Net, rid: RunId, r: RunId)
    requires RunsFit(n)
    ensures Fits(Do(n, CloseRun(rid)), r)
  {
    var m := Do(n, CloseRun(rid));
    var out, birth := Outbox(n, rid), Birth(n, rid);
    assert Fits(n, r);
    if r == rid && rid in n.bus.runs {
      CloseHoldsTail(n.bus.runs[rid], out[birth..]);
      assert Outbox(m, rid)[birth..] == out[birth..] + [Sentinel];
    }
  }

  lemma {:induction false} StepRuns(n: Net, a: Action)
    requires Enabled(n, a) && Consistent(n.bus) && RunsFit(n)
    ensures RunsFit(Do(n, a))
  {
    var m := Do(n, a);
    forall r ensures Fits(m, r) {
      match a
      case OpenRun(rid, now) => OpenFits(n, rid, now, r);
      case Publish(rid, created, now, draft) => PublishFits(n, rid, created, now, draft, r);
      case CloseRun(rid) => CloseFits(n, rid, r);
      case _ =>
        assert Fits(n, r);
        assert m.bus.runs == n.bus.runs && Outbox(m, r) == Outbox(n, r) && Birth(m, r) == Birth(n, r);
    }
  }

  // --- the main results -------------------------------------------------------

  /** Every interleaving keeps the invariant. */
  lemma {:induction false} StepKeepsInv(n: Net, a: Action)
    requires Enabled(n, a) && Inv(n)
    ensures Inv(Do(n, a))
  {
    StepConsistent(n, a);
    StepDelivers(n, a);
    StepRuns(n, a);
  }

  lemma {:induction false} RunKeepsInv(n: Net, steps: seq<Action>, n': Net)
    requires Inv(n) && Leads(n, steps, n')
    ensures Inv(n')
    decreases |steps|
  {
    if steps != [] {
      StepKeepsInv(n, steps[0]);
      RunKeepsInv(Do(n, steps[0]), steps[1..], n');
    }
  }

  /** So it holds in every state any interleaving can reach. */
  lemma {:induction false} ReachableStatesKeepInv(capacity: nat, steps: seq<Action>, n: Net)
    requires Leads(Start(capacity), steps, n)
    ensures Inv(n)
  {
    StartIsFine(capacity);
    RunKeepsInv(Start(capacity), steps, n);
  }

  ghost predicate QueuesFit(n: Net) { forall w | w in n.boxes :: |n.boxes[w].queued| <= QUEUE_SIZE }

  lemma {:induction false} StepKeepsQueues(n: Net, a: Action)
    requires Enabled(n, a) && QueuesFit(n)
    ensures QueuesFit(Do(n, a))
  {
  }

  /** No subscriber's queue ever holds more than 2048 items. */
  lemma {:induction false} QueuesStayBounded(capacity: nat, steps: seq<Action>, m: Net)
    requires Leads(Start(capacity), steps, m)
    ensures QueuesFit(m)
  {
    RunKeepsQueues(Start(capacity), steps, m);
  }

  lemma {:induction false} RunKeepsQueues(n: Net, steps: seq<Action>, m: Net)
    requires QueuesFit(n) && Leads(n, steps, m)
    ensures QueuesFit(m)
    decreases |steps|
  {
    if steps != [] {
      StepKeepsQueues(n, steps[0]);
      RunKeepsQueues(Do(n, steps[0]), steps[1..], m);
    }
  }
}
