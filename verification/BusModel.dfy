/** The event bus as a value: what each locked section does to the shared state. */
module BusModel {
  import opened Options
  import opened Sanitiser
  import opened StringOrder

  type RunId = string
  type SubscriberId = nat

  /** `EVENTS_PER_RUN` */
  const EVENTS_PER_RUN: nat := 600

  /** A duration argument: absent, a number, or something `int()` raises on. */
  datatype Duration = Unmeasured | Measured(ms: int) | Unreadable

  /** What a publisher passes in. */
  datatype Draft = Draft(eventType: string, agent: string, title: string, summary: string, status: string,
                         duration: Duration, toolName: string, metadata: Value)

  datatype Event = Event(requestId: RunId, sequence: nat, eventType: string, agent: string, title: string,
                         summary: string, status: string, elapsedMs: int, durationMs: Option<int>,
                         toolName: string, metadata: seq<Entry>)

  datatype Run = Run(started: real, sequence: nat, events: seq<Event>, dropped: nat, finished: bool)

  /** `order` is the insertion order of the `_runs` dictionary. */
  datatype Bus = Bus(capacity: nat, order: seq<RunId>, runs: map<RunId, Run>,
                     subscribers: map<RunId, seq<SubscriberId>>)

  function OrElse(text: string, default: string): string { if text == "" then default else text }

  /** `int((now - started) * 1000)`: Python truncates toward zero. */
  function ElapsedMs(started: real, now: real): int {
    var ms := (now - started) * 1000.0;
    if ms >= 0.0 then ms.Floor else -((-ms).Floor)
  }

  predicate Constructible(d: Draft) { !d.duration.Unreadable? }

  function MakeEvent(rid: RunId, sequence: nat, started: real, now: real, d: Draft): Event
    requires Constructible(d)
  {
    Event(rid, sequence, d.eventType, OrElse(d.agent, "system"), OrElse(d.title, d.eventType), d.summary,
          d.status, ElapsedMs(started, now), if d.duration.Measured? then Some(d.duration.ms) else None,
          d.toolName, SafeMetadata(d.metadata, 0))
  }

  /** The last `n` elements. */
  function Last<T>(xs: seq<T>, n: nat): (r: seq<T>)
    ensures |r| == if |xs| <= n then |xs| else n
  {
    if |xs| <= n then xs else xs[|xs| - n..]
  }

  function NewRun(now: real): Run { Run(now, 0, [], 0, false) }

  /** `deque.append` on a bounded deque. */
  function Append(events: seq<Event>, e: Event): seq<Event> { Last(events + [e], EVENTS_PER_RUN) }

  /** One publish on a run: the counters move first, then the event is built, then it is kept. */
  function Record(run: Run, rid: RunId, now: real, d: Draft): Run {
    var bumped := run.(sequence := run.sequence + 1,
                       dropped := if |run.events| == EVENTS_PER_RUN then run.dropped + 1 else run.dropped);
    if Constructible(d) then
      bumped.(events := Append(run.events, MakeEvent(rid, bumped.sequence, run.started, now, d)))
    else bumped
  }

  function Keep<V>(runs: map<RunId, V>, kept: seq<RunId>): map<RunId, V> {
    map r | r in runs && r in kept :: runs[r]
  }

  /** `_evict`: the oldest runs go until the capacity holds. */
  function Evict(b: Bus): Bus {
    var kept := Last(b.order, b.capacity);
    b.(order := kept, runs := Keep(b.runs, kept))
  }

  /** The run is there afterwards, unless the capacity is zero. */
  function Ensure(b: Bus, rid: RunId, now: real): Bus {
    if rid in b.runs then b
    else Evict(b.(order := b.order + [rid], runs := b.runs[rid := NewRun(now)]))
  }

  function RunFor(b: Bus, rid: RunId, now: real): Run { if rid in b.runs then b.runs[rid] else NewRun(now) }

  function PublishOn(b: Bus, rid: RunId, created: real, now: real, d: Draft): Bus {
    var present := Ensure(b, rid, created);
    if rid in present.runs then
      present.(runs := present.runs[rid := Record(RunFor(b, rid, created), rid, now, d)])
    else present
  }

  function Close(b: Bus, rid: RunId): Bus {
    if rid in b.runs then b.(runs := b.runs[rid := b.runs[rid].(finished := true)]) else b
  }

  function Subscribers(b: Bus, rid: RunId): seq<SubscriberId> {
    if rid in b.subscribers then b.subscribers[rid] else []
  }

  function Enter(b: Bus, rid: RunId, s: SubscriberId): Bus {
    b.(subscribers := b.subscribers[rid := Subscribers(b, rid) + [s]])
  }

  /** `list.remove`: the first occurrence. */
  function Without(xs: seq<SubscriberId>, s: SubscriberId): seq<SubscriberId> {
    if xs == [] then [] else if xs[0] == s then xs[1..] else [xs[0]] + Without(xs[1..], s)
  }

  function Leave(b: Bus, rid: RunId, s: SubscriberId): Bus {
    var left := Without(Subscribers(b, rid), s);
    b.(subscribers := if left == [] then b.subscribers - {rid} else b.subscribers[rid := left])
  }

  predicate IsFinished(b: Bus, rid: RunId) { rid !in b.runs || b.runs[rid].finished }

  function History(b: Bus, rid: RunId): seq<Event> { if rid in b.runs then b.runs[rid].events else [] }

  /** What every reachable bus satisfies. */
  ghost predicate Consistent(b: Bus) {
    && Distinct(b.order)
    && |b.order| <= b.capacity
    && (forall r :: r in b.order <==> r in b.runs)
    && (forall r | r in b.runs :: |b.runs[r].events| <= EVENTS_PER_RUN)
  }

  ghost function Elements(xs: seq<RunId>): set<RunId> { set x | x in xs }

  lemma AppendDistinct(xs: seq<RunId>, x: RunId)
    requires Distinct(xs) && x !in xs
    ensures Distinct(xs + [x])
  {
  }

  /** Dropping the oldest keeps exactly the rest. */
  lemma {:induction false} DroppingIsKeeping<V>(runs: map<RunId, V>, all: seq<RunId>, gone: nat)
    requires Distinct(all) && gone <= |all| && forall r :: r in all <==> r in runs
    ensures runs - Elements(all[..gone]) == Keep(runs, all[gone..])
  {
    assert all == all[..gone] + all[gone..];
  }

  lemma LastIsSuffix<T>(xs: seq<T>, n: nat)
    ensures forall x | x in Last(xs, n) :: x in xs
  {
  }

  lemma {:induction false} LastOfLast<T>(xs: seq<T>, x: T, n: nat)
    ensures Last(Last(xs, n) + [x], n) == Last(xs + [x], n)
  {
    if |xs| > n {
      var kept := Last(xs, n) + [x];
      assert kept == (xs + [x])[|xs| - n..];
    }
  }

  lemma {:induction false} EvictKeepsConsistent(b: Bus)
    requires Distinct(b.order) && (forall r :: r in b.order <==> r in b.runs)
    requires forall r | r in b.runs :: |b.runs[r].events| <= EVENTS_PER_RUN
    ensures Consistent(Evict(b))
  {
    LastIsSuffix(b.order, b.capacity);
  }

  lemma {:induction false} EnsureKeepsConsistent(b: Bus, rid: RunId, now: real)
    requires Consistent(b)
    ensures Consistent(Ensure(b, rid, now))
  {
    if rid !in b.runs {
      EvictKeepsConsistent(b.(order := b.order + [rid], runs := b.runs[rid := NewRun(now)]));
    }
  }

  lemma {:induction false} PublishKeepsConsistent(b: Bus, rid: RunId, created: real, now: real, d: Draft)
    requires Consistent(b)
    ensures Consistent(PublishOn(b, rid, created, now, d))
  {
    EnsureKeepsConsistent(b, rid, created);
  }
}
